/** The control panel: the settings the user edits, their handlers, and the
    page that hands them to the visualizer on every render. */
module App {
  import opened Wrappers
  import EcmaScript
  import Visualizer

  /** The tempo after the BPM field changed to `input`: a parsed number
      above 0 is taken, an empty field gives 0, and anything else (text,
      "0", negatives) leaves the tempo as it was. */
  function NextBpm(bpm: int, input: string): (next: int)
    ensures next == bpm || next == 0 || next > 0
  {
    var newBpm := EcmaScript.ParseInt(input);
    if newBpm.Some? && newBpm.value > 0 then newBpm.value
    else if input == "" then 0
    else bpm
  }

  /** Typing a positive whole number sets the tempo to it. */
  lemma NextBpmOfPositive(bpm: int, n: int)
    requires n > 0
    ensures NextBpm(bpm, EcmaScript.IntToString(n)) == n
  {
    EcmaScript.ParseIntOfIntToString(n);
  }

  /** Typing 0 or a negative number leaves the tempo unchanged. */
  lemma NextBpmOfNonPositive(bpm: int, n: int)
    requires n <= 0
    ensures NextBpm(bpm, EcmaScript.IntToString(n)) == bpm
  {
    EcmaScript.ParseIntOfIntToString(n);
  }

  /** Clearing the field sets the tempo to 0, which cannot play whatever
      the play state and the beat count. */
  lemma NextBpmOfEmpty(bpm: int)
    ensures NextBpm(bpm, "") == 0
    ensures forall isPlaying: bool, beats: int :: !Visualizer.Runs(isPlaying, NextBpm(bpm, ""), beats)
  {
  }

  /** Any text that reads as a number (leading white space, a sign, digits,
      then anything else such as a fraction or an exponent) sets the tempo
      to that number when it is positive and leaves it unchanged otherwise. */
  lemma NextBpmOfReading(bpm: int, input: string, ws: string, sign: string, digits: string, rest: string)
    requires EcmaScript.IsNumericPrefix(input, ws, sign, digits, rest)
    ensures var n := EcmaScript.SignedValue(sign, digits);
      NextBpm(bpm, input) == if n > 0 then n else bpm
  {
    EcmaScript.ParseIntComplete(input, ws, sign, digits, rest);
  }

  /** Text that is not a number at all leaves the tempo unchanged. */
  lemma NextBpmOfNaN(bpm: int, input: string)
    requires input != ""
    requires !exists ws, sign, digits, rest :: EcmaScript.IsNumericPrefix(input, ws, sign, digits, rest)
    ensures NextBpm(bpm, input) == bpm
  {
    EcmaScript.ParseIntNaN(input);
  }

  /** The page's own state. */
  class ControlPanel {
    var timeSignature: string
    var bpm: int
    var isPlaying: bool
    var volume: real
    var isExporting: bool

    /** The tempo is either 0 (cannot play) or positive. */
    ghost predicate Valid()
      reads this
    {
      bpm >= 0
    }

    /** Four-four at 120 BPM, stopped, half volume, not exporting. */
    constructor ()
      ensures Valid()
      ensures timeSignature == "4/4" && bpm == 120 && !isPlaying && volume == 0.5 && !isExporting
    {
      timeSignature := "4/4";
      bpm := 120;
      isPlaying := false;
      volume := 0.5;
      isExporting := false;
    }

    /** The time-signature field is stored as typed. */
    method HandleTimeSignatureChange(value: string)
      requires Valid()
      modifies this
      ensures Valid()
      ensures timeSignature == value
      ensures bpm == old(bpm) && isPlaying == old(isPlaying) && volume == old(volume)
      ensures isExporting == old(isExporting)
    {
      timeSignature := value;
    }

    method HandleBpmChange(value: string)
      requires Valid()
      modifies this
      ensures Valid()
      ensures bpm == NextBpm(old(bpm), value)
      ensures timeSignature == old(timeSignature) && isPlaying == old(isPlaying)
      ensures volume == old(volume) && isExporting == old(isExporting)
    {
      bpm := NextBpm(bpm, value);
    }

    /** Start becomes Stop and Stop becomes Start. */
    method TogglePlay()
      requires Valid()
      modifies this
      ensures Valid()
      ensures isPlaying == !old(isPlaying)
      ensures timeSignature == old(timeSignature) && bpm == old(bpm)
      ensures volume == old(volume) && isExporting == old(isExporting)
    {
      isPlaying := !isPlaying;
    }

    /** Entering or leaving export mode always stops playback and never
        touches the tempo or the time signature. */
    method ToggleExportMode()
      requires Valid()
      modifies this
      ensures Valid()
      ensures isExporting == !old(isExporting) && !isPlaying
      ensures timeSignature == old(timeSignature) && bpm == old(bpm) && volume == old(volume)
    {
      if isPlaying {
        isPlaying := false;
      }
      isExporting := !isExporting;
    }
  }

  /** Pressing the play button twice restores every setting. */
  method TogglePlayTwice(panel: ControlPanel)
    requires panel.Valid()
    modifies panel
    ensures panel.Valid()
    ensures panel.isPlaying == old(panel.isPlaying) && panel.bpm == old(panel.bpm)
    ensures panel.timeSignature == old(panel.timeSignature) && panel.volume == old(panel.volume)
    ensures panel.isExporting == old(panel.isExporting)
  {
    panel.TogglePlay();
    panel.TogglePlay();
  }

  /** The page with its visualizer: after each handler the page re-renders
      and passes the current settings down, the beat count derived from the
      time-signature text. */
  class Metronome {
    const panel: ControlPanel
    const visualizer: Visualizer.Scheduler

    /** The visualizer always shows the panel's current settings. */
    ghost predicate Valid()
      reads this, panel, visualizer
    {
      panel.Valid() && visualizer.Valid()
      && visualizer.isPlaying == panel.isPlaying
      && visualizer.bpm == panel.bpm
      && visualizer.beats == Visualizer.BeatCount(panel.timeSignature)
    }

    /** The first render: four-four at 120 BPM, stopped, so no beat and no timer. */
    constructor ()
      ensures Valid() && fresh(panel) && fresh(visualizer)
      ensures !panel.isPlaying && panel.bpm == 120 && panel.timeSignature == "4/4"
      ensures panel.volume == 0.5 && !panel.isExporting
      ensures visualizer.currentBeat == 0 && !visualizer.timerArmed && visualizer.cues == []
    {
      var p := new ControlPanel();
      panel := p;
      visualizer := new Visualizer.Scheduler(p.isPlaying, p.bpm, Visualizer.BeatCount(p.timeSignature));
    }

    method Rerender() returns (cue: Option<Visualizer.Cue>)
      requires panel.Valid() && visualizer.Valid()
      modifies visualizer
      ensures Valid()
      ensures visualizer.isPlaying == panel.isPlaying && visualizer.bpm == panel.bpm
      ensures visualizer.beats == Visualizer.BeatCount(panel.timeSignature)
      ensures (old(visualizer.isPlaying) != panel.isPlaying || old(visualizer.bpm) != panel.bpm
               || old(visualizer.beats) != visualizer.beats) ==>
        (visualizer.timerArmed ==>
          visualizer.currentBeat == 1 && visualizer.ticks == 0 && cue == Some(Visualizer.Accent)
          && visualizer.cues == old(visualizer.cues) + [Visualizer.Accent])
        && (!visualizer.timerArmed ==>
          visualizer.currentBeat == 0 && cue == None && visualizer.cues == old(visualizer.cues))
      ensures (old(visualizer.isPlaying) == panel.isPlaying && old(visualizer.bpm) == panel.bpm
               && old(visualizer.beats) == visualizer.beats) ==>
        cue == None && visualizer.currentBeat == old(visualizer.currentBeat)
        && visualizer.ticks == old(visualizer.ticks) && visualizer.cues == old(visualizer.cues)
        && visualizer.timerArmed == old(visualizer.timerArmed)
    {
      cue := visualizer.SetProps(panel.isPlaying, panel.bpm, Visualizer.BeatCount(panel.timeSignature));
    }

    /** Toggling export mode stops the metronome: the interval is cleared
        and the beat is back to 0. */
    method ToggleExportMode() returns (cue: Option<Visualizer.Cue>)
      requires Valid()
      modifies panel, visualizer
      ensures Valid()
      ensures panel.isExporting == !old(panel.isExporting) && !panel.isPlaying
      ensures panel.timeSignature == old(panel.timeSignature) && panel.bpm == old(panel.bpm)
      ensures panel.volume == old(panel.volume)
      ensures !visualizer.timerArmed && visualizer.liveTimers == 0 && visualizer.currentBeat == 0
      ensures cue == None
    {
      panel.ToggleExportMode();
      cue := Rerender();
    }

    /** Pressing Start or Stop: starting with a usable tempo plays beat 1
        at once; stopping clears the interval. */
    method TogglePlay() returns (cue: Option<Visualizer.Cue>)
      requires Valid()
      modifies panel, visualizer
      ensures Valid()
      ensures panel.isPlaying == !old(panel.isPlaying)
      ensures panel.timeSignature == old(panel.timeSignature) && panel.bpm == old(panel.bpm)
      ensures panel.volume == old(panel.volume) && panel.isExporting == old(panel.isExporting)
      ensures panel.isPlaying && panel.bpm > 0 ==>
        visualizer.timerArmed && visualizer.currentBeat == 1 && cue == Some(Visualizer.Accent)
      ensures !panel.isPlaying || panel.bpm == 0 ==>
        !visualizer.timerArmed && visualizer.currentBeat == 0 && cue == None
    {
      panel.TogglePlay();
      cue := Rerender();
    }

    /** Editing the tempo: while playing, a new positive tempo restarts at
        beat 1; an empty field stops the beat. */
    method BpmChanged(value: string) returns (cue: Option<Visualizer.Cue>)
      requires Valid()
      modifies panel, visualizer
      ensures Valid()
      ensures panel.bpm == NextBpm(old(panel.bpm), value) && panel.isPlaying == old(panel.isPlaying)
      ensures panel.timeSignature == old(panel.timeSignature)
      ensures panel.volume == old(panel.volume) && panel.isExporting == old(panel.isExporting)
      ensures panel.bpm != old(panel.bpm) && panel.isPlaying && panel.bpm > 0 ==>
        visualizer.currentBeat == 1 && cue == Some(Visualizer.Accent)
      ensures panel.bpm == old(panel.bpm) ==>
        cue == None && visualizer.currentBeat == old(visualizer.currentBeat)
      ensures panel.bpm == 0 ==> !visualizer.timerArmed && visualizer.currentBeat == 0 && cue == None
      ensures !visualizer.timerArmed ==> cue == None
    {
      panel.HandleBpmChange(value);
      cue := Rerender();
    }

    /** Editing the time signature: while playing, a change of beat count
        restarts at beat 1. */
    method TimeSignatureChanged(value: string) returns (cue: Option<Visualizer.Cue>)
      requires Valid()
      modifies panel, visualizer
      ensures Valid()
      ensures panel.timeSignature == value && visualizer.beats == Visualizer.BeatCount(value)
      ensures panel.bpm == old(panel.bpm) && panel.isPlaying == old(panel.isPlaying)
      ensures panel.volume == old(panel.volume) && panel.isExporting == old(panel.isExporting)
      ensures visualizer.beats != old(visualizer.beats) && visualizer.timerArmed ==>
        visualizer.currentBeat == 1 && cue == Some(Visualizer.Accent)
      ensures visualizer.beats == old(visualizer.beats) ==>
        cue == None && visualizer.currentBeat == old(visualizer.currentBeat)
        && visualizer.ticks == old(visualizer.ticks)
      ensures !visualizer.timerArmed ==> cue == None
    {
      panel.HandleTimeSignatureChange(value);
      cue := Rerender();
    }

    /** One firing of the live interval. */
    method Tick() returns (cue: Visualizer.Cue)
      requires Valid() && visualizer.timerArmed
      modifies visualizer
      ensures Valid() && visualizer.timerArmed
      ensures visualizer.beats == old(visualizer.beats)
      ensures visualizer.currentBeat == Visualizer.NextBeat(old(visualizer.currentBeat), visualizer.beats)
      ensures 1 <= visualizer.currentBeat <= visualizer.beats
      ensures cue == Visualizer.Accent <==> visualizer.currentBeat == 1
      ensures visualizer.cues == old(visualizer.cues) + [cue]
    {
      cue := visualizer.Tick();
    }
  }
}
