/**
 The draw state machine of the tournament final bracket page.

 A fixed list of bracket slots and a roster of participants; an operator
 selects a participant and starts a draw, and when the draw completes (on
 its deadline or on the stop key) one free slot, picked at random, is
 given to the participant selected at that moment. The page's globals are
 the fields of `DrawMachine`; its event handlers are the methods.
 */
module FinalBracket {
  import opened Filter

  /** The key that stops a running draw early. */
  const StopKey: string := "b"

  /** The value of the participant selector while its placeholder option is chosen. */
  const Placeholder: string := ""

  /** How a press of the start button ended. */
  datatype StartOutcome =
    | Busy          // a draw is already running: ignored without a message
    | NoSelection   // no participant selected: the operator is alerted
    | NoFreeSlot    // every slot is taken: the operator is alerted
    | Started       // the draw is running

  /** What a completion request did. */
  datatype Completion =
    | NotDrawing                                 // nothing was running: no effect
    | Committed(slot: string, participant: string)

  /** `Math.floor(random * n)` for a `random` drawn from [0, 1): an index below `n`. */
  function RandomIndex(random: real, n: nat): (i: nat)
    requires 0.0 <= random < 1.0
    requires n > 0
    ensures i < n
  {
    var x := random * (n as real);
    assert 0.0 <= x < n as real;
    x.Floor
  }

  /** The random pick of a draw: the slot at a random index of `available`. */
  function DrawRandomSlot(available: seq<string>, random: real): (slot: string)
    requires 0.0 <= random < 1.0
    requires |available| > 0
    ensures slot in available
  {
    available[RandomIndex(random, |available|)]
  }

  /** Recording `slot -> who` for a slot that was free keeps both derived
      lists equal to the master lists filtered by the new assignment. */
  lemma CommitKeepsSync(allSlots: seq<string>, participants: seq<string>,
                        state: map<string, string>, slot: string, who: string)
    requires slot !in state
    ensures Without(Without(allSlots, state.Keys), {slot}) == Without(allSlots, state[slot := who].Keys)
    ensures Without(Without(participants, state.Values), {who}) == Without(participants, state[slot := who].Values)
  {
    var next := state[slot := who];
    assert next.Keys == state.Keys + {slot};
    assert next.Values == state.Values + {who} by {
      forall v | v in next.Values ensures v in state.Values + {who} {
        var k :| k in next && next[k] == v;
        if k != slot { assert k in state && state[k] == v; }
      }
      forall v | v in state.Values ensures v in next.Values {
        var k :| k in state && state[k] == v;
        assert k != slot && k in next && next[k] == v;
      }
      assert slot in next && next[slot] == who;
    }
    WithoutWithout(allSlots, state.Keys, {slot});
    WithoutWithout(participants, state.Values, {who});
  }

  class DrawMachine {
    /** The slot names of the bracket, in page order (`allSlots`); fixed at page load. */
    const allSlots: seq<string>
    /** The roster (`participants`); fixed at page load. */
    const participants: seq<string>
    /** The assignment made so far, slot to participant (`bracketState`). */
    var bracketState: map<string, string>
    /** The slots still free (`availableSlots`). */
    var availableSlots: seq<string>
    /** The participants still unplaced, as the selector offers them (`availableParticipants`). */
    var availableParticipants: seq<string>
    /** A draw is running (`isProcessing`). */
    var isProcessing: bool
    /** The stop key is held down (`isKeyDown`). */
    var isKeyDown: bool
    /** The history kept in the saved document (`jsonData.history`). */
    var history: map<string, string>
    /** The animation interval handle is set (`animationIntervalId` is not null). */
    var intervalArmed: bool
    /** The start button is disabled. */
    var startDisabled: bool
    /** The reset button is disabled. */
    var resetDisabled: bool

    /** Nothing offered as free is already assigned. */
    ghost predicate Disjoint()
      reads this
    {
      && (forall i :: 0 <= i < |availableSlots| ==> availableSlots[i] !in bracketState)
      && (forall i :: 0 <= i < |availableParticipants| ==> availableParticipants[i] !in bracketState.Values)
    }

    /** The machine's invariant: the derived lists are the master lists
        filtered by the assignment, the saved history mirrors it, and a
        running draw has a free slot to land on and a live interval. */
    ghost predicate Valid()
      reads this
    {
      && availableSlots == Without(allSlots, bracketState.Keys)
      && availableParticipants == Without(participants, bracketState.Values)
      && history == bracketState
      && (isProcessing ==> intervalArmed && |availableSlots| > 0)
    }

    /** Every state the machine can be in keeps its free lists disjoint
        from the assignment's slots and participants. */
    lemma ValidIsDisjoint()
      requires Valid()
      ensures Disjoint()
    {
    }

    /** Page load: the slot names are the non-empty first-span texts of the
        bracket's participant boxes (`initialize`); the roster and the prior
        history come from the document (`window.onload`); then `InitializeUI`. */
    constructor (slotTexts: seq<string>, roster: seq<string>, savedHistory: map<string, string>)
      ensures Valid()
      ensures allSlots == Without(slotTexts, {""}) && participants == roster
      ensures bracketState == savedHistory
      ensures !isProcessing && !isKeyDown && !intervalArmed
      ensures !resetDisabled
      ensures startDisabled == (|availableParticipants| == 0 || |allSlots| == |bracketState|)
    {
      allSlots := Without(slotTexts, {""});
      startDisabled, resetDisabled := true, true;
      participants := roster;
      bracketState := savedHistory;
      history := savedHistory;
      availableSlots, availableParticipants := [], [];
      isProcessing, isKeyDown, intervalArmed := false, false, false;
      new;
      InitializeUI();
    }

    /** Recompute the derived lists from the master lists and the
        assignment, and enable the buttons (`initializeUI`). */
    method InitializeUI()
      modifies this`availableSlots, this`availableParticipants, this`startDisabled, this`resetDisabled
      ensures availableSlots == Without(allSlots, bracketState.Keys)
      ensures availableParticipants == Without(participants, bracketState.Values)
      ensures !resetDisabled
      ensures startDisabled == (|availableParticipants| == 0 || |allSlots| == |bracketState|)
    {
      availableSlots := Without(allSlots, bracketState.Keys);
      availableParticipants := Without(participants, bracketState.Values);
      startDisabled, resetDisabled := false, false;
      if |availableParticipants| == 0 || |allSlots| == |bracketState| {
        startDisabled := true;
      }
    }

    /** The start button (`startClick`) with the selector showing `selected`. */
    method StartClick(selected: string) returns (outcome: StartOutcome)
      requires Valid()
      modifies this`isProcessing, this`intervalArmed, this`startDisabled, this`resetDisabled
      ensures Valid()
      ensures old(isProcessing) ==> outcome == Busy
      ensures !old(isProcessing) && selected == Placeholder ==> outcome == NoSelection
      ensures !old(isProcessing) && selected != Placeholder && |availableSlots| == 0 ==> outcome == NoFreeSlot
      ensures outcome == Started <==> !old(isProcessing) && selected != Placeholder && |availableSlots| > 0
      ensures outcome != Started ==> unchanged(this)
      ensures outcome == Started ==> isProcessing && intervalArmed && startDisabled && resetDisabled
    {
      if isProcessing {
        return Busy;
      }
      if selected == Placeholder {
        return NoSelection;
      }
      if |availableSlots| == 0 {
        return NoFreeSlot;
      }
      isProcessing := true;
      startDisabled, resetDisabled := true, true;
      // startDraw: the rolling display interval and the deadline timer are armed.
      intervalArmed := true;
      outcome := Started;
    }

    /** Complete a running draw (`stopDraw`), on the deadline or on the stop
        key: `random` is the value `Math.random` returns and `selected` is what
        the selector shows at this moment (its placeholder or an offered name). */
    method StopDraw(random: real, selected: string) returns (outcome: Completion)
      requires Valid()
      requires 0.0 <= random < 1.0
      requires isProcessing ==> selected == Placeholder || selected in availableParticipants
      modifies this`bracketState, this`availableSlots, this`availableParticipants, this`history
      modifies this`isProcessing, this`intervalArmed, this`startDisabled, this`resetDisabled
      ensures Valid() && !isProcessing
      ensures !old(isProcessing) ==> outcome == NotDrawing && unchanged(this)
      ensures old(isProcessing) ==>
        && outcome == Committed(DrawRandomSlot(old(availableSlots), random), selected)
        && outcome.slot in old(availableSlots) && outcome.slot !in old(bracketState)
        && bracketState == old(bracketState)[outcome.slot := selected]
        && availableSlots == Without(old(availableSlots), {outcome.slot})
        && availableParticipants == Without(old(availableParticipants), {selected})
        && (selected in old(availableParticipants) ==> selected !in old(bracketState).Values)
        && startDisabled == (|availableParticipants| == 0) && !resetDisabled
        && !intervalArmed
    {
      if !isProcessing {
        return NotDrawing;
      }
      // The deadline timer and the interval are cleared and their handles nulled.
      intervalArmed := false;
      var finalSlot := DrawRandomSlot(availableSlots, random);
      assert finalSlot !in bracketState;
      assert selected in availableParticipants ==> selected !in bracketState.Values;
      CommitKeepsSync(allSlots, participants, bracketState, finalSlot, selected);
      bracketState := bracketState[finalSlot := selected];
      UpdateUI(finalSlot, selected);
      SaveState();
      isProcessing := false;
      resetDisabled := false;
      if |availableParticipants| > 0 {
        startDisabled := false;
      }
      outcome := Committed(finalSlot, selected);
    }

    /** The list part of `updateUI`: drop the drawn slot and the placed
        participant from the derived lists; disable start once nobody is left. */
    method UpdateUI(drawnSlot: string, participantName: string)
      modifies this`availableSlots, this`availableParticipants, this`startDisabled
      ensures availableSlots == Without(old(availableSlots), {drawnSlot})
      ensures availableParticipants == Without(old(availableParticipants), {participantName})
      ensures startDisabled == (old(startDisabled) || |availableParticipants| == 0)
    {
      availableSlots := Without(availableSlots, {drawnSlot});
      availableParticipants := Without(availableParticipants, {participantName});
      if |availableParticipants| == 0 {
        startDisabled := true;
      }
    }

    /** `saveState`: the document's history becomes the current assignment. */
    method SaveState()
      modifies this`history
      ensures history == bracketState
    {
      history := bracketState;
    }

    /** The reset button (`resetClick`); `confirmed` is the operator's answer
        to the confirmation dialog. */
    method ResetClick(confirmed: bool)
      requires Valid()
      modifies this`bracketState, this`availableSlots, this`availableParticipants, this`history
      modifies this`isProcessing, this`startDisabled, this`resetDisabled
      ensures Valid() && !isProcessing
      ensures confirmed ==>
        && bracketState == map[] && history == map[]
        && availableSlots == allSlots && availableParticipants == participants
        && !resetDisabled
        && startDisabled == (|participants| == 0 || |allSlots| == 0)
      ensures !confirmed ==>
        && bracketState == old(bracketState) && history == old(history)
        && availableSlots == old(availableSlots) && availableParticipants == old(availableParticipants)
        && startDisabled == old(startDisabled) && resetDisabled == old(resetDisabled)
    {
      if intervalArmed {
        // The timers are cleared; the handle itself is left set.
        isProcessing := false;
      }
      if confirmed {
        bracketState := map[];
        history := map[];
        SaveState();
        InitializeUI();
        WithoutNone(allSlots, {});
        WithoutNone(participants, {});
      }
    }

    /** A key going down (the `keydown` listener): the stop key completes a
        running draw, once per press. */
    method KeyDown(key: string, random: real, selected: string) returns (outcome: Completion)
      requires Valid()
      requires 0.0 <= random < 1.0
      requires isProcessing ==> selected == Placeholder || selected in availableParticipants
      modifies this`bracketState, this`availableSlots, this`availableParticipants, this`history
      modifies this`isProcessing, this`intervalArmed, this`startDisabled, this`resetDisabled
      modifies this`isKeyDown
      ensures Valid()
      ensures outcome.Committed? <==> key == StopKey && !old(isKeyDown) && old(isProcessing)
      ensures !outcome.Committed? ==> unchanged(this) && outcome == NotDrawing
      ensures outcome.Committed? ==>
        && isKeyDown && !isProcessing
        && outcome == Committed(DrawRandomSlot(old(availableSlots), random), selected)
        && outcome.slot in old(availableSlots) && outcome.slot !in old(bracketState)
        && bracketState == old(bracketState)[outcome.slot := selected]
        && availableSlots == Without(old(availableSlots), {outcome.slot})
        && availableParticipants == Without(old(availableParticipants), {selected})
        && startDisabled == (|availableParticipants| == 0) && !resetDisabled
        && !intervalArmed
    {
      outcome := NotDrawing;
      if key == StopKey && !isKeyDown && isProcessing {
        isKeyDown := true;
        outcome := StopDraw(random, selected);
      }
    }

    /** A key coming up (the `keyup` listener): releasing the stop key re-arms it. */
    method KeyUp(key: string)
      modifies this`isKeyDown
      ensures isKeyDown == (old(isKeyDown) && key != StopKey)
    {
      if key == StopKey {
        isKeyDown := false;
      }
    }
  }
}
