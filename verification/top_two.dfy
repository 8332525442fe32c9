/** Winner determination of `claim`: one pass over the revealed values that
    keeps the highest value, the second-highest value and the party holding
    the highest. The pass is given as a sequence of (party, value) pairs in
    the order the contract's hash map happens to yield them. */
module TopTwo {
  import opened Types

  /** Running state of the scan; `started` is false until the first entry. */
  datatype Scan = Scan(started: bool, highest: Amount, second: Amount, winner: Party)

  /** Before any entry: both values 0 and the winner is the empty name. */
  const Initial: Scan := Scan(false, 0, 0, "")

  /** One iteration of the loop. The first entry seeds `highest` and
      `winner`; afterwards a value only counts when it beats `second`, and it
      takes over `highest` (and the winner) only when it beats that too. */
  function Step(s: Scan, p: Party, v: Amount): (next: Scan)
  {
    if !s.started then Scan(true, v, s.second, p)
    else if v > s.second then
      if s.highest < v then Scan(true, v, s.highest, p)
      else Scan(true, s.highest, v, s.winner)
    else s
  }

  /** The scan over a whole sequence, processed front to back. */
  function Fold(ps: seq<(Party, Amount)>): (s: Scan)
  {
    if ps == [] then Initial
    else
      var last := ps[|ps| - 1];
      Step(Fold(ps[..|ps| - 1]), last.0, last.1)
  }

  /** `s` is the right answer for `ps` with the maximum first reached at
      index `w`: `highest` is the largest value, no earlier entry reaches it,
      the winner is that entry's party, and `second` is the largest value
      once that one entry is set aside (duplicates of the maximum count),
      or 0 when there is no other entry. */
  ghost predicate TopTwoAt(ps: seq<(Party, Amount)>, s: Scan, w: int)
  {
    && 0 <= w < |ps|
    && s.started
    && s.winner == ps[w].0
    && s.highest == ps[w].1
    && (forall k :: 0 <= k < |ps| ==> ps[k].1 <= s.highest)
    && (forall k :: 0 <= k < w ==> ps[k].1 < s.highest)
    && (forall k :: 0 <= k < |ps| && k != w ==> ps[k].1 <= s.second)
    && (if |ps| == 1 then s.second == 0
        else exists j :: 0 <= j < |ps| && j != w && ps[j].1 == s.second)
  }

  /** The specification of the scan over a whole sequence. */
  ghost predicate IsTopTwo(ps: seq<(Party, Amount)>, s: Scan)
  {
    if ps == [] then s == Initial else exists w :: TopTwoAt(ps, s, w)
  }

  /** One step of the scan keeps the specification, moving the winner index
      to the new entry exactly when its value beats the current highest. */
  lemma StepKeepsTopTwo(ps: seq<(Party, Amount)>, s: Scan, w: int, p: Party, v: Amount)
    requires TopTwoAt(ps, s, w)
    ensures TopTwoAt(ps + [(p, v)], Step(s, p, v), if v > s.highest then |ps| else w)
  {
    var ps' := ps + [(p, v)];
    var n := |ps|;
    assert forall k :: 0 <= k < n ==> ps'[k] == ps[k];
    assert ps'[n] == (p, v);
    if v > s.highest {
      assert TopTwoAt(ps', Step(s, p, v), n) by {
        assert ps'[w].1 == s.highest;
      }
    } else if v > s.second {
      assert ps'[n].1 == Step(s, p, v).second;
    } else if |ps| == 1 {
      assert ps'[n].1 == Step(s, p, v).second;
    } else {
      var j :| 0 <= j < |ps| && j != w && ps[j].1 == s.second;
      assert ps'[j].1 == s.second;
    }
  }

  /** The first entry seeds the scan correctly. */
  lemma FirstStepIsTopTwo(p: Party, v: Amount)
    ensures TopTwoAt([(p, v)], Step(Initial, p, v), 0)
  {
  }

  /** The functional scan meets its specification on every sequence. */
  lemma {:induction false} FoldIsTopTwo(ps: seq<(Party, Amount)>)
    ensures IsTopTwo(ps, Fold(ps))
  {
    if ps != [] {
      var init := ps[..|ps| - 1];
      var last := ps[|ps| - 1];
      assert ps == init + [last];
      if init == [] {
        FirstStepIsTopTwo(last.0, last.1);
        assert ps == [(last.0, last.1)];
        assert TopTwoAt(ps, Fold(ps), 0);
      } else {
        FoldIsTopTwo(init);
        var w :| TopTwoAt(init, Fold(init), w);
        StepKeepsTopTwo(init, Fold(init), w, last.0, last.1);
      }
    }
  }

  /** The loop as the contract writes it: a first-entry flag, a compare
      against `second`, then a swap with `highest` that also moves the winner.
      Its result is the functional scan, and it meets the specification. */
  method SelectWinner(ps: seq<(Party, Amount)>) returns (highest: Amount, second: Amount, winner: Party)
    ensures Scan(ps != [], highest, second, winner) == Fold(ps)
    ensures ps == [] ==> highest == 0 && second == 0 && winner == ""
    ensures ps != [] ==> exists w :: TopTwoAt(ps, Scan(true, highest, second, winner), w)
  {
    highest, second, winner := 0, 0, "";
    var isFirst := true;
    ghost var w := 0;
    var i := 0;
    while i < |ps|
      invariant 0 <= i <= |ps|
      invariant isFirst <==> i == 0
      invariant Scan(!isFirst, highest, second, winner) == Fold(ps[..i])
      invariant i > 0 ==> TopTwoAt(ps[..i], Scan(true, highest, second, winner), w)
    {
      var (p, v) := ps[i];
      ghost var cur := Scan(!isFirst, highest, second, winner);
      ghost var prefix := ps[..i];
      assert ps[..i + 1] == prefix + [(p, v)];
      if isFirst {
        assert prefix == [];
        FirstStepIsTopTwo(p, v);
        w := 0;
        highest := v;
        isFirst := false;
        winner := p;
      } else {
        StepKeepsTopTwo(prefix, cur, w, p, v);
        if v > highest {
          w := i;
        }
        if v > second {
          second := v;
          if highest < second {
            highest, second := second, highest;
            winner := p;
          }
        }
      }
      assert Scan(true, highest, second, winner) == Step(cur, p, v);
      i := i + 1;
    }
    assert ps[..i] == ps;
  }
}
