/**
 * The note state of the sketch: the twelve on-screen keys, the computer-keyboard
 * keys that play them, the list of held notes the arpeggiator steps through,
 * and the octave offset. Each event handler's effect on that state is a method
 * of `Keyboard`; `midiToFreq` (an exponential) is passed in as a function.
 */
module Keyboard {
  import opened JsMath
  import opened Wrappers
  import opened DualOscillator

  /** `midiKeys`: the MIDI notes of the twelve keys, C4 to B4. */
  const MidiKeys: seq<int> := [60, 61, 62, 63, 64, 65, 66, 67, 68, 69, 70, 71]

  /** `midiKeyChars`: the computer keys that play them. */
  const MidiKeyChars: seq<char> := ['a', 'w', 's', 'e', 'd', 'f', 't', 'g', 'y', 'h', 'u', 'j']

  /** The octave offset is kept within three octaves either way. */
  const MinOctave: int := -3
  const MaxOctave: int := 3

  /** `keyToMidi(k)`: the note of a key, -1 for any other character. */
  function KeyToMidi(k: char): int
  {
    match k
    case 'a' => 60 case 'w' => 61 case 's' => 62 case 'e' => 63
    case 'd' => 64 case 'f' => 65 case 't' => 66 case 'g' => 67
    case 'y' => 68 case 'h' => 69 case 'u' => 70 case 'j' => 71
    case _ => -1
  }

  /** The lookup agrees with the two tables, key by key, and knows no other key. */
  lemma KeyToMidiTable()
    ensures forall i :: 0 <= i < 12 ==> KeyToMidi(MidiKeyChars[i]) == MidiKeys[i]
    ensures forall k :: KeyToMidi(k) != -1 <==> k in MidiKeyChars
  {
  }

  /** The keys are twelve consecutive notes. */
  lemma MidiKeysConsecutive()
    ensures |MidiKeys| == 12
    ensures forall i :: 0 <= i < 12 ==> MidiKeys[i] == 60 + i
  {
  }

  /** `array.indexOf(x)`: the first position of `x`, or -1. */
  function IndexOf(s: seq<int>, x: int): (r: int)
    ensures r == -1 <==> x !in s
    ensures r != -1 ==> 0 <= r < |s| && s[r] == x && forall j :: 0 <= j < r ==> s[j] != x
  {
    if |s| == 0 then -1
    else if s[0] == x then 0
    else var r := IndexOf(s[1..], x); if r == -1 then -1 else r + 1
  }

  /** `notes.filter(v => v !== x)`: the notes in order, without `x`. */
  function Remove(s: seq<int>, x: int): (r: seq<int>)
    ensures x !in r
    ensures forall y :: y in r <==> y in s && y != x
    ensures |r| <= |s|
    ensures x !in s ==> r == s
  {
    if |s| == 0 then []
    else if s[0] == x then Remove(s[1..], x)
    else [s[0]] + Remove(s[1..], x)
  }

  /** No note is held twice. */
  predicate NoDups(s: seq<int>)
  {
    forall i, j :: 0 <= i < j < |s| ==> s[i] != s[j]
  }

  /** Filtering keeps a duplicate-free list duplicate-free, and drops exactly one entry when `x` is there. */
  lemma {:induction false} RemoveNoDups(s: seq<int>, x: int)
    requires NoDups(s)
    ensures NoDups(Remove(s, x))
    ensures x in s ==> |Remove(s, x)| == |s| - 1
    ensures x !in s ==> Remove(s, x) == s
  {
    if |s| > 0 {
      assert NoDups(s[1..]);
      RemoveNoDups(s[1..], x);
      if s[0] == x {
        assert x !in s[1..];
      } else {
        var t := Remove(s[1..], x);
        assert s[0] !in t;
        assert Remove(s, x) == [s[0]] + t;
      }
    }
  }

  /** A push guarded by `includes` keeps the list duplicate-free. */
  lemma PushNoDups(s: seq<int>, x: int)
    requires NoDups(s) && x !in s
    ensures NoDups(s + [x])
  {
  }

  /** `syncKeyboardNotes` for one key: add the note if its key is down, drop it if not. */
  function SyncKey(held: seq<int>, midi: int, isDown: bool): seq<int>
  {
    if isDown then (if midi in held then held else held + [midi])
    else (if midi in held then Remove(held, midi) else held)
  }

  /** One key's step holds `midi` exactly when its key is down and leaves every other note as it was. */
  lemma SyncKeySpec(held: seq<int>, midi: int, isDown: bool)
    requires NoDups(held)
    ensures NoDups(SyncKey(held, midi, isDown))
    ensures forall y :: y in SyncKey(held, midi, isDown) <==> if y == midi then isDown else y in held
    ensures isDown == (midi in held) ==> SyncKey(held, midi, isDown) == held
  {
    if midi in held {
      RemoveNoDups(held, midi);
    }
  }

  /** The held notes after `syncKeyboardNotes` has visited the first `k` keys. */
  function SyncUpTo(held: seq<int>, down: seq<bool>, k: nat): seq<int>
    requires k <= |down| <= 12
  {
    if k == 0 then held else SyncKey(SyncUpTo(held, down, k - 1), MidiKeys[k - 1], down[k - 1])
  }

  /**
   * After visiting the first `k` keys: each visited key's note is held exactly
   * when its key is down, an unvisited key's note is held as before, no note
   * is held twice and only notes of the keyboard are held.
   */
  lemma {:induction false} SyncUpToSpec(held: seq<int>, down: seq<bool>, k: nat)
    requires k <= |down| == 12
    requires NoDups(held) && forall x :: x in held ==> x in MidiKeys
    ensures NoDups(SyncUpTo(held, down, k))
    ensures forall x :: x in SyncUpTo(held, down, k) ==> x in MidiKeys
    ensures forall i :: 0 <= i < k ==> (MidiKeys[i] in SyncUpTo(held, down, k) <==> down[i])
    ensures forall i :: k <= i < 12 ==> (MidiKeys[i] in SyncUpTo(held, down, k) <==> MidiKeys[i] in held)
    ensures (forall i :: 0 <= i < k ==> down[i] == (MidiKeys[i] in held)) ==> SyncUpTo(held, down, k) == held
  {
    if k > 0 {
      SyncUpToSpec(held, down, k - 1);
      var prev := SyncUpTo(held, down, k - 1);
      SyncKeySpec(prev, MidiKeys[k - 1], down[k - 1]);
      MidiKeysConsecutive();
    }
  }

  /** After a whole pass the held notes are exactly the notes whose keys are down. */
  lemma SyncNotesExact(held: seq<int>, down: seq<bool>)
    requires |down| == 12
    requires NoDups(held) && forall x :: x in held ==> x in MidiKeys
    ensures NoDups(SyncUpTo(held, down, 12))
    ensures forall x :: x in SyncUpTo(held, down, 12) <==> exists i :: 0 <= i < 12 && MidiKeys[i] == x && down[i]
  {
    SyncUpToSpec(held, down, 12);
  }

  /**
   * A note held through on-screen key `i` is dropped by the next keyboard
   * poll when computer key `i` is up: the poll knows nothing about the mouse,
   * so a note stays held only while its computer key is down.
   */
  lemma SyncDropsMouseNote(held: seq<int>, down: seq<bool>, i: int)
    requires |down| == 12 && 0 <= i < 12 && !down[i]
    requires NoDups(held) && forall x :: x in held ==> x in MidiKeys
    ensures MidiKeys[i] !in SyncUpTo(held, down, 12)
  {
    SyncUpToSpec(held, down, 12);
  }

  /** With no computer key down one poll empties the held notes, whatever was held before. */
  lemma SyncAllUpEmpties(held: seq<int>, down: seq<bool>)
    requires |down| == 12 && forall i :: 0 <= i < 12 ==> !down[i]
    requires NoDups(held) && forall x :: x in held ==> x in MidiKeys
    ensures SyncUpTo(held, down, 12) == []
  {
    SyncNotesExact(held, down);
    var r := SyncUpTo(held, down, 12);
    assert forall x :: x !in r;
    FirstIsMember(r);
  }

  /** A non-empty list has a member: its first note. */
  lemma FirstIsMember(s: seq<int>)
    ensures s == [] || s[0] in s
  {
  }

  /** Key `i`'s held state disagrees with its key state, so `syncKeyboardNotes` acts on it. */
  predicate Changed(held: seq<int>, down: seq<bool>, i: int)
    requires 0 <= i < |down| <= 12
  {
    down[i] != (MidiKeys[i] in held)
  }

  /** Some of the first `k` keys changed. */
  function AnyChanged(held: seq<int>, down: seq<bool>, k: nat): bool
    requires k <= |down| <= 12
  {
    k > 0 && (AnyChanged(held, down, k - 1) || Changed(held, down, k - 1))
  }

  lemma {:induction false} AnyChangedSpec(held: seq<int>, down: seq<bool>, k: nat)
    requires k <= |down| <= 12
    ensures AnyChanged(held, down, k) <==> exists j :: 0 <= j < k && Changed(held, down, j)
  {
    if k > 0 {
      AnyChangedSpec(held, down, k - 1);
    }
  }

  /** The key lights after `syncKeyboardNotes` has visited the first `k` keys. */
  function SyncLights(ui: seq<bool>, held: seq<int>, down: seq<bool>, k: nat): (r: seq<bool>)
    requires k <= |down| == 12 && |ui| == 12
    ensures |r| == 12
  {
    if k == 0 then ui
    else
      var u := SyncLights(ui, held, down, k - 1);
      if Changed(held, down, k - 1) then u[k - 1 := down[k - 1]] else u
  }

  lemma {:induction false} SyncLightsSpec(ui: seq<bool>, held: seq<int>, down: seq<bool>, k: nat)
    requires k <= |down| == 12 && |ui| == 12
    ensures forall j :: 0 <= j < k ==>
      SyncLights(ui, held, down, k)[j] == if Changed(held, down, j) then down[j] else ui[j]
    ensures forall j :: k <= j < 12 ==> SyncLights(ui, held, down, k)[j] == ui[j]
  {
    if k > 0 {
      SyncLightsSpec(ui, held, down, k - 1);
    }
  }

  class Keyboard {
    /** `notesHeld`, in the order the notes were added. */
    var notesHeld: seq<int>
    var arpIndex: nat
    var currentOctave: int
    /** `lastPlayedMidi`, `null` as `None`. */
    var lastPlayedMidi: Option<int>
    /** `uiKeyOn`: which on-screen keys are lit. */
    var uiKeyOn: seq<bool>
    /** `mouseKeyDownIndex`, `null` as `None`. */
    var mouseKeyDownIndex: Option<int>

    /**
     * Only keyboard notes are held, none twice; the octave stays in range; the
     * arpeggiator index is 0 or points into the held notes.
     */
    ghost predicate Valid()
      reads this
    {
      && NoDups(notesHeld)
      && (forall x :: x in notesHeld ==> x in MidiKeys)
      && MinOctave <= currentOctave <= MaxOctave
      && (arpIndex == 0 || arpIndex < |notesHeld|)
      && |uiKeyOn| == 12
      && (mouseKeyDownIndex.Some? ==> 0 <= mouseKeyDownIndex.value < 12)
    }

    /** The initial state: nothing held, no key lit, octave 0. */
    constructor ()
      ensures Valid()
      ensures notesHeld == [] && arpIndex == 0 && currentOctave == 0
      ensures lastPlayedMidi == None && mouseKeyDownIndex == None
      ensures uiKeyOn == seq(12, _ => false)
    {
      notesHeld := [];
      arpIndex := 0;
      currentOctave := 0;
      lastPlayedMidi := None;
      uiKeyOn := seq(12, _ => false);
      mouseKeyDownIndex := None;
    }

    /** The on-screen-key branch of `mousePressed` for key `i`. */
    method PressUIKey(i: int)
      requires Valid() && 0 <= i < 12
      modifies this`uiKeyOn, this`notesHeld, this`arpIndex, this`mouseKeyDownIndex
      ensures Valid()
      ensures uiKeyOn == old(uiKeyOn)[i := true]
      ensures old(uiKeyOn[i]) ==> notesHeld == old(notesHeld) && arpIndex == old(arpIndex)
      ensures !old(uiKeyOn[i]) ==>
        && arpIndex == 0
        && notesHeld == (if MidiKeys[i] in old(notesHeld) then old(notesHeld) else old(notesHeld) + [MidiKeys[i]])
      ensures mouseKeyDownIndex == Some(i)
    {
      if !uiKeyOn[i] {
        uiKeyOn := uiKeyOn[i := true];
        var m := MidiKeys[i];
        if m !in notesHeld {
          PushNoDups(notesHeld, m);
          notesHeld := notesHeld + [m];
        }
        arpIndex := 0;
      }
      mouseKeyDownIndex := Some(i);
    }

    /** The on-screen-key branch of `mouseReleased`: release the key the mouse went down on. */
    method ReleaseMouseKey()
      requires Valid()
      modifies this`uiKeyOn, this`notesHeld, this`arpIndex, this`mouseKeyDownIndex
      ensures Valid()
      ensures mouseKeyDownIndex == None
      ensures old(mouseKeyDownIndex).Some? && old(uiKeyOn[mouseKeyDownIndex.value]) ==>
        var i := old(mouseKeyDownIndex).value;
        && uiKeyOn == old(uiKeyOn)[i := false]
        && notesHeld == Remove(old(notesHeld), MidiKeys[i])
        && arpIndex == 0
      ensures !(old(mouseKeyDownIndex).Some? && old(uiKeyOn[mouseKeyDownIndex.value])) ==>
        uiKeyOn == old(uiKeyOn) && notesHeld == old(notesHeld) && arpIndex == old(arpIndex)
    {
      if mouseKeyDownIndex.Some? {
        var i := mouseKeyDownIndex.value;
        if uiKeyOn[i] {
          uiKeyOn := uiKeyOn[i := false];
          var m := MidiKeys[i];
          RemoveNoDups(notesHeld, m);
          notesHeld := Remove(notesHeld, m);
          arpIndex := 0;
        }
        mouseKeyDownIndex := None;
      }
    }

    /**
     * `syncKeyboardNotes()`, with `down[i]` the polled state of key
     * `midiKeyChars[i]`: afterwards exactly the notes of the keys that are
     * down are held; a key whose held state changed has its light set to its
     * key state, and any change restarts the arpeggiator.
     */
    method SyncKeyboardNotes(down: seq<bool>)
      requires Valid() && |down| == 12
      modifies this`uiKeyOn, this`notesHeld, this`arpIndex
      ensures Valid()
      ensures notesHeld == SyncUpTo(old(notesHeld), down, 12)
      ensures forall x :: x in notesHeld <==> exists i :: 0 <= i < 12 && MidiKeys[i] == x && down[i]
      ensures forall i :: 0 <= i < 12 ==>
        uiKeyOn[i] == if Changed(old(notesHeld), down, i) then down[i] else old(uiKeyOn[i])
      ensures arpIndex ==
        if exists i :: 0 <= i < 12 && Changed(old(notesHeld), down, i) then 0 else old(arpIndex)
    {
      ghost var held0 := notesHeld;
      ghost var ui0 := uiKeyOn;
      ghost var arp0 := arpIndex;
      for i := 0 to 12
        invariant notesHeld == SyncUpTo(held0, down, i)
        invariant uiKeyOn == SyncLights(ui0, held0, down, i)
        invariant arpIndex == if AnyChanged(held0, down, i) then 0 else arp0
      {
        SyncOneKey(i, down, held0);
      }
      SyncUpToSpec(held0, down, 12);
      SyncNotesExact(held0, down);
      SyncLightsSpec(ui0, held0, down, 12);
      AnyChangedSpec(held0, down, 12);
    }

    /** The body of the `syncKeyboardNotes` loop for key `i`. */
    method SyncOneKey(i: nat, down: seq<bool>, ghost held0: seq<int>)
      requires i < |down| == 12 && |uiKeyOn| == 12
      requires NoDups(held0) && forall x :: x in held0 ==> x in MidiKeys
      requires notesHeld == SyncUpTo(held0, down, i)
      modifies this`uiKeyOn, this`notesHeld, this`arpIndex
      ensures notesHeld == SyncUpTo(held0, down, i + 1)
      ensures uiKeyOn == (if Changed(held0, down, i) then old(uiKeyOn)[i := down[i]] else old(uiKeyOn))
      ensures arpIndex == if Changed(held0, down, i) then 0 else old(arpIndex)
    {
      SyncUpToSpec(held0, down, i);
      MidiKeysConsecutive();
      var midi := MidiKeys[i];
      assert IndexOf(MidiKeys, midi) == i;
      if down[i] {
        if midi !in notesHeld {
          notesHeld := notesHeld + [midi];
          SetUIKey(midi, true);
          arpIndex := 0;
        }
      } else {
        if midi in notesHeld {
          notesHeld := Remove(notesHeld, midi);
          SetUIKey(midi, false);
          arpIndex := 0;
        }
      }
    }

    /** `setUIKey(midi, on)`: light or darken the key of `midi`, if it is one of the twelve. */
    method SetUIKey(midi: int, on: bool)
      requires |uiKeyOn| == 12
      modifies this`uiKeyOn
      ensures var idx := IndexOf(MidiKeys, midi);
        uiKeyOn == if idx >= 0 then old(uiKeyOn)[idx := on] else old(uiKeyOn)
    {
      var idx := IndexOf(MidiKeys, midi);
      if idx >= 0 {
        uiKeyOn := uiKeyOn[idx := on];
      }
    }

    /** `noteOn(midi)`: play `midi` shifted by the octave offset, and remember it unshifted. */
    method NoteOn(midi: int, osc: Oscillators, midiToFreq: int -> real)
      requires osc.Valid()
      modifies this`lastPlayedMidi, osc`baseFreq, osc`leftFreq, osc`rightFreq
      ensures osc.Valid()
      ensures osc.baseFreq == midiToFreq(midi + currentOctave * 12) && osc.ratio == old(osc.ratio)
      ensures lastPlayedMidi == Some(midi)
    {
      var f := midiToFreq(midi + currentOctave * 12);
      osc.SetBaseFreq(f);
      lastPlayedMidi := Some(midi);
    }

    /**
     * The arpeggiator step of `draw()` (Up mode), with `stepDue` standing for
     * "a sixteenth at 135 BPM has passed": play the note at the index and
     * advance it round the held notes.
     */
    method ArpStep(stepDue: bool, osc: Oscillators, midiToFreq: int -> real)
      requires Valid() && osc.Valid()
      modifies this`arpIndex, this`lastPlayedMidi, osc`baseFreq, osc`leftFreq, osc`rightFreq
      ensures Valid() && osc.Valid()
      ensures |notesHeld| > 0 && stepDue ==>
        var m := notesHeld[old(arpIndex) % |notesHeld|];
        && lastPlayedMidi == Some(m)
        && osc.baseFreq == midiToFreq(m + currentOctave * 12)
        && arpIndex == (old(arpIndex) + 1) % |notesHeld|
        && arpIndex < |notesHeld|
      ensures !(|notesHeld| > 0 && stepDue) ==>
        arpIndex == old(arpIndex) && lastPlayedMidi == old(lastPlayedMidi) && osc.baseFreq == old(osc.baseFreq)
    {
      if |notesHeld| > 0 && stepDue {
        NoteOn(notesHeld[arpIndex % |notesHeld|], osc, midiToFreq);
        arpIndex := (arpIndex + 1) % |notesHeld|;
      }
    }

    /** `changeOctave(direction)`: move the octave within [-3, 3] and retune the last note. */
    method ChangeOctave(direction: int, osc: Oscillators, midiToFreq: int -> real)
      requires Valid() && osc.Valid()
      modifies this`currentOctave, osc`baseFreq, osc`leftFreq, osc`rightFreq
      ensures Valid() && osc.Valid()
      ensures currentOctave == ConstrainInt(old(currentOctave) + direction, MinOctave, MaxOctave)
      ensures lastPlayedMidi.Some? ==> osc.baseFreq == midiToFreq(lastPlayedMidi.value + currentOctave * 12)
      ensures lastPlayedMidi.None? ==> osc.baseFreq == old(osc.baseFreq)
    {
      currentOctave := ConstrainInt(currentOctave + direction, MinOctave, MaxOctave);
      if lastPlayedMidi.Some? {
        var f := midiToFreq(lastPlayedMidi.value + currentOctave * 12);
        osc.SetBaseFreq(f);
      }
    }

    /** The frequency-slider branch of `draw()`: set the base frequency and forget the last note. */
    method FreqSliderMoved(f: real, osc: Oscillators)
      requires osc.Valid()
      modifies this`lastPlayedMidi, osc`baseFreq, osc`leftFreq, osc`rightFreq
      ensures osc.Valid() && osc.baseFreq == f
      ensures lastPlayedMidi == None
    {
      osc.SetBaseFreq(f);
      lastPlayedMidi := None;
    }
  }
}
