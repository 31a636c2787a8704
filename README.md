# Tournament final bracket: the draw state machine

This project models the draw engine of the tournament's final-bracket page
(`js/tournament_final_bracket.js`) and proves properties of it in Dafny 4.11.

The page holds a fixed list of bracket slots and a roster of participants.
The operator picks a participant in a selector and presses start. A draw
then "rolls" for three seconds, or until the operator presses the `b` key.
When the draw completes, one free slot is picked at random and given to the
participant the selector shows at that moment. A reset, once confirmed,
empties the bracket.

Files:

- `filter.dfy`, module `Filter`: `Without`, the order-keeping list filter
  the page uses to compute its "available" lists, with its algebra
  (concatenation, occurrence counts, filtering twice, filtering by nothing).
- `final_bracket.dfy`, module `FinalBracket`: the page's globals as the
  fields of class `DrawMachine`, its event handlers as methods, and the
  random pick as the pure functions `RandomIndex` and `DrawRandomSlot`.
  `allSlots` and `participants` are `const` fields, because nothing
  reassigns them after the page has loaded.
- `draw_scenarios.dfy`, module `DrawScenarios`: event sequences proved from
  the handlers' contracts alone. One is the stop key racing the deadline
  timer. One is a key held across two draws. One is a whole draw on a
  two-slot bracket.

The invariant `DrawMachine.Valid()` says four things:

- `availableSlots` is `allSlots` filtered by the assigned slots.
- `availableParticipants` is `participants` filtered by the assigned
  participants.
- The saved history equals the assignment.
- A running draw has a free slot and a set interval handle.

The constructor establishes it, and `StartClick`, `StopDraw`, `ResetClick`
and `KeyDown` preserve it. `InitializeUI` re-establishes only its two list
conjuncts; its callers supply the rest. `ValidIsDisjoint` derives from it
that the free lists never meet the assignment.

Behaviour of the source that the model keeps:

- The participant is read from the selector again when the draw completes.
  So the value committed may differ from the one the start guard checked.
  It may even be the selector's empty placeholder: the selector stays live
  during the draw. `StopDraw` therefore accepts the placeholder or any
  offered participant. Its contract says that an offered participant is
  never one already placed.
- `resetClick` clears the timers but leaves `animationIntervalId` set. So
  the abort branch runs again on every later reset, until the next
  completed draw clears the handle. The model's
  `intervalArmed` keeps that handle, and `isProcessing ==> intervalArmed` is
  what makes "reset always ends a running draw" hold.
- `allSlots` keeps only non-empty slot names (line 56). Both filters remove
  every copy of a name, so duplicate names are removed together.
- After load or reset, start is disabled when no participant is left, or
  when the NUMBER of assigned slots equals the number of slots (line 122).
  This compares counts, not sets.

The code leaves out three checks one might expect, and the model follows
the code:

- The code does not reject a prior history that names unknown slots or
  participants.
- Starting a draw checks only that the selection is non-empty, not that the
  selected name is still free.
- The participant is not captured when the draw starts.

## Model

| member | source | states |
|---|---|---|
| Filter.Without | js/tournament_final_bracket.js:92-96 | an element is kept exactly when it is in the input and not excluded; the result is no longer than the input |
| Filter.WithoutAppend | js/tournament_final_bracket.js:93-96 | filtering distributes over concatenation, so kept elements stay in their original order |
| Filter.WithoutCount | js/tournament_final_bracket.js:197-198 | a kept element keeps all of its occurrences, and an excluded one keeps none |
| Filter.WithoutWithout | js/tournament_final_bracket.js:197-198 | filtering by one exclusion and then another equals filtering once by their union |
| Filter.WithoutNone | js/tournament_final_bracket.js:227-232 | a list with no excluded element passes unchanged; after a confirmed reset, the available lists are the full lists |
| FinalBracket.RandomIndex | js/tournament_final_bracket.js:186 | `floor(random * n)` with random in [0, 1) is an index below n |
| FinalBracket.DrawRandomSlot | js/tournament_final_bracket.js:185-188 | the random pick is an element of the non-empty free-slot list |
| FinalBracket.CommitKeepsSync | js/tournament_final_bracket.js:169-198 | recording a free slot for a participant and then removing both from the free lists gives the master lists filtered by the new assignment |
| FinalBracket.DrawMachine.ValidIsDisjoint | js/tournament_final_bracket.js:92-96 | in every valid state, no free slot is assigned and no free participant is placed |
| FinalBracket.DrawMachine.constructor | js/tournament_final_bracket.js:35-66 | page load: slots are the non-empty slot texts, roster and prior history are taken as given, derived lists are computed, the machine is idle with reset enabled and start governed by the line-122 rule |
| FinalBracket.DrawMachine.InitializeUI | js/tournament_final_bracket.js:91-125 | the free lists become the master lists filtered by the assignment's keys and values, in order; reset is enabled; start is disabled exactly when no participant is free or the assigned count equals the slot count |
| FinalBracket.DrawMachine.StartClick | js/tournament_final_bracket.js:127-156 | ignored while drawing; refuses an empty selection, then an empty free-slot list, changing nothing; otherwise starts the draw and disables both buttons; the invariant is kept |
| FinalBracket.DrawMachine.StopDraw | js/tournament_final_bracket.js:158-183 | does nothing unless drawing; otherwise commits exactly `slot -> selected` for the random free slot (no existing key is overwritten), removes both from the free lists in order, mirrors the history, ends the draw, and enables start exactly when a participant is left; the invariant is kept |
| FinalBracket.DrawMachine.UpdateUI | js/tournament_final_bracket.js:190-211 | drops the drawn slot and the placed participant from the free lists, keeping the order of the rest; disables start once no participant is left |
| FinalBracket.DrawMachine.SaveState | js/tournament_final_bracket.js:213-217 | the saved history becomes the current assignment |
| FinalBracket.DrawMachine.ResetClick | js/tournament_final_bracket.js:219-236 | always ends a running draw; when confirmed, empties assignment and history and restores the free lists to the full lists; when declined, leaves assignment, lists and buttons untouched |
| FinalBracket.DrawMachine.KeyDown | js/tournament_final_bracket.js:69-74 | the stop key completes a running draw exactly when it is not already held, and latches; the completion has the effects of `StopDraw`, including start enabled exactly when a participant is left, reset enabled and the interval handle cleared; any other key press changes nothing |
| FinalBracket.DrawMachine.KeyUp | js/tournament_final_bracket.js:75-79 | releasing the stop key clears the latch; other keys leave it |
| DrawScenarios.KeyThenDeadline | js/tournament_final_bracket.js:155-178 | when the key and the deadline both complete one draw, exactly one slot is assigned |
| DrawScenarios.HeldKeyAcrossDraws | js/tournament_final_bracket.js:69-79 | the first press completes the running draw, adding exactly one assignment; if a second draw then starts, the repeated press of the still-held key is ignored and that draw keeps running; releasing the key re-arms the latch |
| DrawScenarios.TwoByTwo | js/tournament_final_bracket.js:127-198 | with roster A, B and slots S1, S2, one draw for A returns an assignment of exactly A to S1 or S2, free participants exactly B, and free slots exactly the other slot |

## Left out

- Page rendering is not modelled: slot discovery through `querySelectorAll`,
  slot texts and classes, the rebuilt option list, the drawn-number display.
  The slot texts are a constructor parameter.
- Sound playback (Howler) is not modelled: it is a foreign library with no
  effect on state.
- Timers are not modelled directly. The 100 ms rolling display changes no
  state. The 3 s deadline and the stop key are callers of `StopDraw` and
  `KeyDown`.
- `Math.random` is a parameter `random` in [0, 1). The floating-point
  rounding of `random * n` is not modelled; the product is a real.
- FinalBracket.DrawRandomSlot: states only membership in the free list. It
  does not say the pick is uniform, because probability is outside the
  model.
- `drawRandomSlot` on an empty list (it would return `undefined`) is not
  modelled. `DrawRandomSlot` requires a non-empty list, and the invariant
  guarantees one whenever a draw is running.
- `alert` and `confirm` are not modelled. The alerts are the `StartOutcome`
  values, and the confirmation is the `confirmed` argument of `ResetClick`.
- `console.log` and `JSON.stringify` in `saveState` are output only. Saving
  to and loading from a file are disabled in this version of the page
  (`loadClick`, `readFile`), so no save/load round trip is modelled.
- `bracketState` and `jsonData.history` are one object in the page (an
  alias). The model keeps two map values equal, through `SaveState` and the
  invariant.
- JavaScript object quirks (inherited property names as slot keys) are not
  modelled; the assignment is a plain finite map from strings.
- The `window.onload` wiring and the hard-coded roster are not modelled.
  `TwoByTwo` stands in as a concrete instance.
