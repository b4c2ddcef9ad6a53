/** Conditions over the moments of a run that some steps establish and others end. */
module Histories {

  /**
   Whether a condition holds at a later moment, told from its start and from the steps in between: something
   established it, and whatever ended it was followed by a step that established it again.
   */
  ghost predicate LastWord(start: bool, up: nat -> bool, down: nat -> bool, first: nat, later: nat) {
    && (start || exists j :: first <= j < later && up(j))
    && forall i | first <= i < later && down(i) :: UpAgain(up, i, later)
  }

  ghost predicate UpAgain(up: nat -> bool, i: nat, later: nat) {
    exists j :: i < j < later && up(j)
  }

  lemma OneMoreStep(start: bool, up: nat -> bool, down: nat -> bool, first: nat, k: nat)
    requires first <= k && !(up(k) && down(k))
    ensures LastWord(start, up, down, first, k + 1) <==> up(k) || (LastWord(start, up, down, first, k) && !down(k))
  {
    if up(k) {
      forall i | first <= i < k + 1 && down(i) ensures UpAgain(up, i, k + 1) {
        assert i != k;
      }
    } else {
      forall i | first <= i < k ensures UpAgain(up, i, k) <==> UpAgain(up, i, k + 1) {
        if UpAgain(up, i, k + 1) {
          var j :| i < j < k + 1 && up(j);
          assert j != k;
        }
      }
      assert !UpAgain(up, k, k + 1);
    }
  }

  /** A condition that every single step changes in this way is told in this way. */
  lemma {:induction false} StepsDecide(holds: nat -> bool, up: nat -> bool, down: nat -> bool, first: nat, later: nat)
    requires first <= later
    requires forall k | first <= k < later :: !(up(k) && down(k)) && (holds(k + 1) <==> up(k) || (holds(k) && !down(k)))
    ensures holds(later) <==> LastWord(holds(first), up, down, first, later)
    decreases later
  {
    if first < later {
      StepsDecide(holds, up, down, first, later - 1);
      OneMoreStep(holds(first), up, down, first, later - 1);
    }
  }
}
