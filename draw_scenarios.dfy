/**
 Event sequences on the draw machine, proved from the contracts of its
 handlers alone: the page's timers and key listener racing to complete one
 draw, a key held across draws, and a whole draw on a two-slot bracket.
 */
module DrawScenarios {
  import opened Filter
  import opened FinalBracket

  /** The stop key completes the draw first; the deadline timer then fires
      too (its clearing is not relied on): exactly one slot is assigned. */
  method KeyThenDeadline(m: DrawMachine, r1: real, r2: real, selected: string)
    requires m.Valid() && m.isProcessing && !m.isKeyDown
    requires 0.0 <= r1 < 1.0 && 0.0 <= r2 < 1.0
    requires selected == Placeholder || selected in m.availableParticipants
    modifies m
    ensures m.Valid() && !m.isProcessing
    ensures |m.bracketState| == |old(m.bracketState)| + 1
    ensures old(m.bracketState).Keys < m.bracketState.Keys
  {
    var first := m.KeyDown(StopKey, r1, selected);
    assert first.Committed?;
    var second := m.StopDraw(r2, selected);
    assert second == NotDrawing;
  }

  /** A stop key held down from one draw into the next does not stop the
      next one: key repeats are ignored until the key comes up. `started` is
      how the second start ended and `repeat` what the repeated press did. */
  method HeldKeyAcrossDraws(m: DrawMachine, r1: real, r2: real, first: string, second: string)
    returns (started: StartOutcome, repeat: Completion)
    requires m.Valid() && m.isProcessing && !m.isKeyDown
    requires 0.0 <= r1 < 1.0 && 0.0 <= r2 < 1.0
    requires first == Placeholder || first in m.availableParticipants
    modifies m
    ensures m.Valid() && !m.isKeyDown
    ensures |m.bracketState| == |old(m.bracketState)| + 1
    ensures started == Started ==> repeat == NotDrawing && m.isProcessing
  {
    var done := m.KeyDown(StopKey, r1, first);
    started := m.StartClick(second);
    repeat := NotDrawing;
    if started == Started {
      repeat := m.KeyDown(StopKey, r2, Placeholder);
    }
    m.KeyUp(StopKey);
  }

  /** Roster A and B, slots S1 and S2, no history: starting a draw for A and
      completing it places A on one of the two slots and leaves B and the
      other slot free. The results are the drawn slot, the assignment and
      both free lists after the draw. */
  method TwoByTwo(random: real)
    returns (slot: string, assignment: map<string, string>,
             freeSlots: seq<string>, freeParticipants: seq<string>)
    requires 0.0 <= random < 1.0
    ensures slot == "S1" || slot == "S2"
    ensures assignment == map[slot := "A"]
    ensures freeParticipants == ["B"]
    ensures freeSlots == if slot == "S1" then ["S2"] else ["S1"]
  {
    var m := new DrawMachine(["S1", "S2"], ["A", "B"], map[]);
    assert m.availableSlots == ["S1", "S2"] && m.availableParticipants == ["A", "B"] by {
      WithoutNone(m.allSlots, {});
      WithoutNone(m.participants, {});
    }
    var started := m.StartClick("A");
    assert started == Started;
    var done := m.StopDraw(random, "A");
    slot := done.slot;
    assert m.availableParticipants == ["B"] by {
      assert Without<string>(["A", "B"], {"A"}) == Without<string>(["B"], {"A"});
    }
    assert m.availableSlots == if slot == "S1" then ["S2"] else ["S1"] by {
      assert Without<string>(["S1", "S2"], {slot}) ==
        (if slot == "S1" then [] else ["S1"]) + Without<string>(["S2"], {slot});
    }
    assignment, freeSlots, freeParticipants := m.bracketState, m.availableSlots, m.availableParticipants;
  }
}
