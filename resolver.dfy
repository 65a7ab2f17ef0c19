/** The directional resolver `getNextFocusable`
    (components/SpatialNavigationCompat.tsx): over the registry in iteration
    order, skip the current key and keys without a recorded rectangle, keep
    the candidates strictly past the current rectangle's edge, and return the
    first one with the greatest score. */
module Resolver {
  import opened Options
  import opened Geometry
  import opened Registry

  /** Registry index `i` is a candidate: it is not the current key, both it
      and the current key have a rectangle, and it lies past the edge. */
  predicate Eligible(elements: seq<Registration>, positions: map<string, Rect>,
                     direction: string, currentKey: string, i: int)
  {
    && 0 <= i < |elements|
    && currentKey in positions
    && elements[i].key != currentKey
    && elements[i].key in positions
    && EdgeGaps(direction, positions[currentKey], positions[elements[i].key]).along > 0.0
  }

  /** The total score `directionScore + 1/(distance + 1)` of a candidate. */
  function ScoreAt(elements: seq<Registration>, positions: map<string, Rect>,
                   direction: string, currentKey: string, i: int): real
    requires Eligible(elements, positions, direction, currentKey, i)
  {
    Score(EdgeGaps(direction, positions[currentKey], positions[elements[i].key]))
  }

  /** Index `i` is the winner among the first `n` registrations: a candidate
      whose score no candidate exceeds, and which every earlier candidate
      scores strictly below (ties go to the earliest). */
  predicate IsFirstMax(elements: seq<Registration>, positions: map<string, Rect>,
                       direction: string, currentKey: string, n: int, i: int)
  {
    && 0 <= i < n <= |elements|
    && Eligible(elements, positions, direction, currentKey, i)
    && (forall j | 0 <= j < n && Eligible(elements, positions, direction, currentKey, j) ::
          ScoreAt(elements, positions, direction, currentKey, j) <= ScoreAt(elements, positions, direction, currentKey, i))
    && (forall j | 0 <= j < i && Eligible(elements, positions, direction, currentKey, j) ::
          ScoreAt(elements, positions, direction, currentKey, j) < ScoreAt(elements, positions, direction, currentKey, i))
  }

  /** The `bestCandidate` the `forEach` holds after visiting the first `n`
      registrations, as an index: replaced only on a strictly greater score. */
  function BestIndex(elements: seq<Registration>, positions: map<string, Rect>,
                     direction: string, currentKey: string, n: nat): (r: Option<nat>)
    requires n <= |elements|
    ensures r.Some? ==> r.value < n && Eligible(elements, positions, direction, currentKey, r.value)
  {
    if n == 0 then None
    else
      var prev := BestIndex(elements, positions, direction, currentKey, n - 1);
      if !Eligible(elements, positions, direction, currentKey, n - 1) then prev
      else if prev.None?
           || ScoreAt(elements, positions, direction, currentKey, n - 1)
              > ScoreAt(elements, positions, direction, currentKey, prev.value)
      then Some(n - 1)
      else prev
  }

  /** `getNextFocusable(direction, currentKey)` over a registry snapshot and
      a position map. */
  function Resolve(elements: seq<Registration>, positions: map<string, Rect>,
                   direction: string, currentKey: string): (r: Option<string>)
    ensures currentKey !in positions ==> r == None
    ensures !IsKnownDirection(direction) ==> r == None
    ensures r.Some? ==> && r.value != currentKey
                        && Has(elements, r.value)
                        && currentKey in positions && r.value in positions
                        && StrictlyPast(direction, positions[currentKey], positions[r.value])
  {
    match BestIndex(elements, positions, direction, currentKey, |elements|)
    case None => None
    case Some(i) => Some(elements[i].key)
  }

  /** Two first maxima over the same prefix are the same index. */
  lemma FirstMaxUnique(elements: seq<Registration>, positions: map<string, Rect>,
                       direction: string, currentKey: string, n: int, i: int, i': int)
    requires IsFirstMax(elements, positions, direction, currentKey, n, i)
    requires IsFirstMax(elements, positions, direction, currentKey, n, i')
    ensures i == i'
  {
  }

  /** The fold picks exactly the first maximum, and picks nothing exactly
      when there is no candidate. */
  lemma {:induction false} BestIndexIsFirstMax(elements: seq<Registration>, positions: map<string, Rect>,
                                               direction: string, currentKey: string, n: nat)
    requires n <= |elements|
    ensures BestIndex(elements, positions, direction, currentKey, n).None?
            <==> forall j | 0 <= j < n :: !Eligible(elements, positions, direction, currentKey, j)
    ensures forall i :: BestIndex(elements, positions, direction, currentKey, n) == Some(i)
                        <==> IsFirstMax(elements, positions, direction, currentKey, n, i)
  {
    if n > 0 {
      BestIndexIsFirstMax(elements, positions, direction, currentKey, n - 1);
      var r := BestIndex(elements, positions, direction, currentKey, n);
      if r.Some? {
        assert IsFirstMax(elements, positions, direction, currentKey, n, r.value);
        forall i | IsFirstMax(elements, positions, direction, currentKey, n, i)
          ensures r == Some(i)
        {
          FirstMaxUnique(elements, positions, direction, currentKey, n, i, r.value);
        }
      }
    }
  }

  /** The resolver's answer is the key of the first highest-scoring
      candidate, and there is an answer exactly when there is a candidate. */
  lemma ResolveIsFirstMax(elements: seq<Registration>, positions: map<string, Rect>,
                          direction: string, currentKey: string)
    ensures Resolve(elements, positions, direction, currentKey).None?
            <==> forall j | 0 <= j < |elements| :: !Eligible(elements, positions, direction, currentKey, j)
    ensures forall i | IsFirstMax(elements, positions, direction, currentKey, |elements|, i) ::
              Resolve(elements, positions, direction, currentKey) == Some(elements[i].key)
    ensures Resolve(elements, positions, direction, currentKey).Some? ==>
              exists i :: IsFirstMax(elements, positions, direction, currentKey, |elements|, i) &&
                          Resolve(elements, positions, direction, currentKey) == Some(elements[i].key)
  {
    BestIndexIsFirstMax(elements, positions, direction, currentKey, |elements|);
  }

  /** A sole candidate is returned. */
  lemma SoleCandidateChosen(elements: seq<Registration>, positions: map<string, Rect>,
                            direction: string, currentKey: string, i: int)
    requires Eligible(elements, positions, direction, currentKey, i)
    requires forall j | 0 <= j < |elements| && j != i :: !Eligible(elements, positions, direction, currentKey, j)
    ensures Resolve(elements, positions, direction, currentKey) == Some(elements[i].key)
  {
    assert IsFirstMax(elements, positions, direction, currentKey, |elements|, i);
    ResolveIsFirstMax(elements, positions, direction, currentKey);
  }

  /** On equal scores the later registration never wins. */
  lemma TieGoesToEarlier(elements: seq<Registration>, positions: map<string, Rect>,
                         direction: string, currentKey: string, i: int, j: int)
    requires UniqueKeys(elements)
    requires i < j
    requires Eligible(elements, positions, direction, currentKey, i)
    requires Eligible(elements, positions, direction, currentKey, j)
    requires ScoreAt(elements, positions, direction, currentKey, i) == ScoreAt(elements, positions, direction, currentKey, j)
    ensures Resolve(elements, positions, direction, currentKey) != Some(elements[j].key)
  {
    BestIndexIsFirstMax(elements, positions, direction, currentKey, |elements|);
    var b := BestIndex(elements, positions, direction, currentKey, |elements|);
    if b.Some? && b.value != j {
      assert elements[b.value].key != elements[j].key;
    }
  }

  /** With no rectangle recorded for the current key nothing is returned. */
  lemma UnplacedCurrentResolvesNone(elements: seq<Registration>, positions: map<string, Rect>,
                                    direction: string, currentKey: string)
    requires currentKey !in positions
    ensures Resolve(elements, positions, direction, currentKey) == None
  {
  }

  /** A(0,0,50,50) is focused; B(0,100,50,50) lies below it and C(200,100,50,50)
      below and to the right, both 50 past A's bottom edge. DOWN picks B,
      whose centre is aligned with A's, whatever the registry order of B and C. */
  lemma DownPrefersAlignedExample(elements: seq<Registration>, positions: map<string, Rect>, b: int, c: int)
    requires |elements| == 3 && elements[0].key == "A"
    requires (b == 1 && c == 2) || (b == 2 && c == 1)
    requires elements[b].key == "B" && elements[c].key == "C"
    requires "A" in positions && positions["A"] == Rect(0.0, 0.0, 50.0, 50.0)
    requires "B" in positions && positions["B"] == Rect(0.0, 100.0, 50.0, 50.0)
    requires "C" in positions && positions["C"] == Rect(200.0, 100.0, 50.0, 50.0)
    ensures Resolve(elements, positions, "DOWN", "A") == Some("B")
  {
    ExampleScores(elements, positions, b, c);
    var sb := ScoreAt(elements, positions, "DOWN", "A", b);
    forall j | 0 <= j < 3 && Eligible(elements, positions, "DOWN", "A", j)
      ensures ScoreAt(elements, positions, "DOWN", "A", j) <= sb
      ensures j < b ==> ScoreAt(elements, positions, "DOWN", "A", j) < sb
    {
      assert j != 0 by {
        assert elements[j].key != "A";
      }
      assert j == 1 || j == 2;
    }
    assert IsFirstMax(elements, positions, "DOWN", "A", 3, b);
    ResolveIsFirstMax(elements, positions, "DOWN", "A");
  }

  lemma ExampleScores(elements: seq<Registration>, positions: map<string, Rect>, b: int, c: int)
    requires |elements| == 3 && 0 <= b < 3 && 0 <= c < 3
    requires elements[b].key == "B" && elements[c].key == "C"
    requires "A" in positions && positions["A"] == Rect(0.0, 0.0, 50.0, 50.0)
    requires "B" in positions && positions["B"] == Rect(0.0, 100.0, 50.0, 50.0)
    requires "C" in positions && positions["C"] == Rect(200.0, 100.0, 50.0, 50.0)
    ensures Eligible(elements, positions, "DOWN", "A", b)
    ensures Eligible(elements, positions, "DOWN", "A", c)
    ensures ScoreAt(elements, positions, "DOWN", "A", c) < ScoreAt(elements, positions, "DOWN", "A", b)
  {
    var cur := Rect(0.0, 0.0, 50.0, 50.0);
    var gb := EdgeGaps("DOWN", cur, Rect(0.0, 100.0, 50.0, 50.0));
    var gc := EdgeGaps("DOWN", cur, Rect(200.0, 100.0, 50.0, 50.0));
    assert gb == Gaps(50.0, 0.0);
    assert gc == Gaps(50.0, 200.0);
    ScoreMonotone(gb, gc);
  }

  /** The `forEach` loop of `getNextFocusable`, keeping the best key and its
      total score. */
  method NextFocusable(elements: seq<Registration>, positions: map<string, Rect>,
                       direction: string, currentKey: string) returns (next: Option<string>)
    ensures next == Resolve(elements, positions, direction, currentKey)
  {
    if currentKey !in positions {
      return None;
    }
    var currentPos := positions[currentKey];
    var bestKey: string, bestScore: real, found := "", 0.0, false;
    var i := 0;
    while i < |elements|
      invariant 0 <= i <= |elements|
      invariant found == BestIndex(elements, positions, direction, currentKey, i).Some?
      invariant found ==>
        var b := BestIndex(elements, positions, direction, currentKey, i).value;
        bestKey == elements[b].key && bestScore == ScoreAt(elements, positions, direction, currentKey, b)
    {
      var key := elements[i].key;
      if key != currentKey && key in positions {
        var g := EdgeGaps(direction, currentPos, positions[key]);
        if g.along > 0.0 {
          var totalScore := Score(g);
          if !found || totalScore > bestScore {
            bestKey, bestScore, found := key, totalScore, true;
          }
        }
      }
      i := i + 1;
    }
    next := if found then Some(bestKey) else None;
  }
}
