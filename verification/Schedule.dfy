/**
 Who takes the next turn. A round is max(weight) passes over the backends, and on pass p
 backend i takes a turn only while p < weight[i]. Rounds repeat until the ring is full.
 Nothing here depends on a hash, so neither do the slot counts derived from it.
 */
module Schedule {
  import opened Basics

  /** Where the nested loops stand: whole rounds done, pass within the round, next backend. */
  datatype Pos = Pos(lap: nat, pass: nat, i: nat)

  function MaxWeight(ws: seq<nat>, n: nat): (w: nat)
    requires n <= |ws|
  {
    if n == 0 then 0 else
      var rest := MaxWeight(ws, n - 1);
      if rest < ws[n - 1] then ws[n - 1] else rest
  }

  function Passes(ws: seq<nat>): (w: nat) {
    MaxWeight(ws, |ws|)
  }

  ghost predicate Weighted(ws: seq<nat>) {
    |ws| > 0 && forall i :: 0 <= i < |ws| ==> ws[i] > 0
  }

  ghost predicate Within(ws: seq<nat>, at: Pos) {
    at.pass < Passes(ws) && at.i <= |ws|
  }

  /** From `at`, the position of the next turn that is taken: backends out of turns are skipped. */
  function Seek(ws: seq<nat>, at: Pos): (next: Pos)
    requires |ws| > 0 && at.pass < Passes(ws) && at.i <= |ws|
    decreases Passes(ws) - at.pass, |ws| - at.i
  {
    if at.i == |ws| then
      if at.pass + 1 < Passes(ws) then Seek(ws, Pos(at.lap, at.pass + 1, 0)) else Pos(at.lap + 1, 0, 0)
    else if at.pass < ws[at.i] then at
    else Seek(ws, at.(i := at.i + 1))
  }

  /** The position of turn number t. */
  function Turn(ws: seq<nat>, t: nat): (at: Pos)
    requires Weighted(ws)
    ensures Within(ws, at) && at.i < |ws| && at.pass < ws[at.i]
  {
    PassesPositive(ws);
    if t == 0 then Pos(0, 0, 0) else
      var before := Turn(ws, t - 1);
      SeekFinds(ws, before.(i := before.i + 1));
      Seek(ws, before.(i := before.i + 1))
  }

  /** How many of the first t turns are backend b's. */
  function TurnsOf(ws: seq<nat>, t: nat, b: int): (n: nat)
    requires Weighted(ws)
  {
    if t == 0 then 0 else TurnsOf(ws, t - 1, b) + if Turn(ws, t - 1).i == b then 1 else 0
  }

  // ---- the walk over the schedule

  lemma {:induction false} MaxWeightBounds(ws: seq<nat>, n: nat, i: nat)
    requires i < n <= |ws|
    ensures ws[i] <= MaxWeight(ws, n)
  {
    if i < n - 1 {
      MaxWeightBounds(ws, n - 1, i);
    }
  }

  lemma PassesPositive(ws: seq<nat>)
    requires Weighted(ws)
    ensures Passes(ws) > 0
  {
    MaxWeightBounds(ws, |ws|, 0);
  }

  lemma {:induction false} SeekFinds(ws: seq<nat>, at: Pos)
    requires Weighted(ws) && Within(ws, at)
    ensures Within(ws, Seek(ws, at)) && Seek(ws, at).i < |ws|
    ensures Seek(ws, at).pass < ws[Seek(ws, at).i]
    decreases Passes(ws) - at.pass, |ws| - at.i
  {
    if at.i == |ws| {
      if at.pass + 1 < Passes(ws) {
        SeekFinds(ws, Pos(at.lap, at.pass + 1, 0));
      }
    } else if at.pass >= ws[at.i] {
      SeekFinds(ws, at.(i := at.i + 1));
    }
  }

  // ---- a closed form for the turns taken so far

  /** Turns of backend b in the round in progress when the loops stand at `at`. */
  function InRound(ws: seq<nat>, at: Pos, b: nat): (n: nat)
    requires b < |ws|
  {
    Min(at.pass, ws[b]) + if b < at.i && at.pass < ws[b] then 1 else 0
  }

  function Taken(ws: seq<nat>, at: Pos, b: nat): (n: nat)
    requires b < |ws|
  {
    at.lap * ws[b] + InRound(ws, at, b)
  }

  /** Skipping backends that are out of turns takes no turn from anyone. */
  lemma {:induction false} SeekTakesNothing(ws: seq<nat>, at: Pos, b: nat)
    requires Weighted(ws) && Within(ws, at) && b < |ws|
    ensures Taken(ws, Seek(ws, at), b) == Taken(ws, at, b)
    decreases Passes(ws) - at.pass, |ws| - at.i
  {
    if at.i == |ws| {
      if at.pass + 1 < Passes(ws) {
        SeekTakesNothing(ws, Pos(at.lap, at.pass + 1, 0), b);
      } else {
        MaxWeightBounds(ws, |ws|, b);
        assert (at.lap + 1) * ws[b] == at.lap * ws[b] + ws[b];
      }
    } else if at.pass >= ws[at.i] {
      SeekTakesNothing(ws, at.(i := at.i + 1), b);
    }
  }

  lemma {:induction false} TurnsTaken(ws: seq<nat>, t: nat, b: nat)
    requires Weighted(ws) && b < |ws|
    ensures TurnsOf(ws, t, b) == Taken(ws, Turn(ws, t), b)
  {
    if t > 0 {
      TurnsTaken(ws, t - 1, b);
      var before := Turn(ws, t - 1);
      SeekTakesNothing(ws, before.(i := before.i + 1), b);
    } else {
      assert 0 * ws[b] == 0;
    }
  }

  // ---- whole rounds

  function InRoundSum(ws: seq<nat>, at: Pos, n: nat): (total: nat)
    requires n <= |ws|
  {
    if n == 0 then 0 else InRoundSum(ws, at, n - 1) + InRound(ws, at, n - 1)
  }

  function TurnsSum(ws: seq<nat>, t: nat, n: nat): (total: nat)
    requires Weighted(ws)
  {
    if n == 0 then 0 else TurnsSum(ws, t, n - 1) + TurnsOf(ws, t, n - 1)
  }

  /** Every turn is somebody's: the turns of all backends add up to t. */
  lemma {:induction false} TurnsAddUp(ws: seq<nat>, t: nat)
    requires Weighted(ws)
    ensures TurnsSum(ws, t, |ws|) == t
  {
    if t == 0 {
      TurnsSumZero(ws, |ws|);
    } else {
      TurnsAddUp(ws, t - 1);
      TurnsSumStep(ws, t, |ws|);
    }
  }

  lemma {:induction false} TurnsSumZero(ws: seq<nat>, n: nat)
    requires Weighted(ws)
    ensures TurnsSum(ws, 0, n) == 0
  {
    if n > 0 {
      TurnsSumZero(ws, n - 1);
    }
  }

  lemma {:induction false} TurnsSumStep(ws: seq<nat>, t: nat, n: nat)
    requires Weighted(ws) && t > 0
    ensures TurnsSum(ws, t, n) == TurnsSum(ws, t - 1, n) + if Turn(ws, t - 1).i < n then 1 else 0
  {
    if n > 0 {
      TurnsSumStep(ws, t, n - 1);
    }
  }

  lemma MulAdd(l: nat, a: nat, b: nat)
    ensures l * (a + b) == l * a + l * b
  {
  }

  lemma MulSucc(l: nat, w: nat)
    ensures (l + 1) * w == l * w + w
  {
  }

  lemma {:induction false} TurnsByRound(ws: seq<nat>, t: nat, n: nat)
    requires Weighted(ws) && n <= |ws|
    ensures TurnsSum(ws, t, n) == Turn(ws, t).lap * Sum(ws[..n]) + InRoundSum(ws, Turn(ws, t), n)
  {
    var lap := Turn(ws, t).lap;
    if n > 0 {
      TurnsByRound(ws, t, n - 1);
      TurnsTaken(ws, t, n - 1);
      assert ws[..n][..n - 1] == ws[..n - 1];
      MulAdd(lap, Sum(ws[..n - 1]), ws[n - 1]);
    }
  }

  /** A round in progress has taken fewer turns than the weights add up to. */
  lemma {:induction false} RoundUnfinished(ws: seq<nat>, at: Pos, n: nat)
    requires n <= |ws| && at.i < |ws| && at.pass < ws[at.i]
    ensures InRoundSum(ws, at, n) <= Sum(ws[..n])
    ensures at.i < n ==> InRoundSum(ws, at, n) < Sum(ws[..n])
  {
    if n > 0 {
      RoundUnfinished(ws, at, n - 1);
      assert ws[..n][..n - 1] == ws[..n - 1];
    }
  }

  lemma DivUnique(x: nat, w: nat, q: nat, r: nat)
    requires w > 0 && x == q * w + r && r < w
    ensures x / w == q
  {
    var d := x / w - q;
    assert d * w == r - x % w by {
      assert x == (x / w) * w + x % w;
      assert d * w == (x / w) * w - q * w;
    }
    assert d >= 1 ==> d * w >= w;
    assert d <= -1 ==> d * w <= 0 - w;
  }

  /** After t turns exactly t / sum(weights) rounds are complete. */
  lemma RoundsComplete(ws: seq<nat>, t: nat)
    requires Weighted(ws)
    ensures Sum(ws) > 0
    ensures Turn(ws, t).lap == t / Sum(ws)
  {
    var at := Turn(ws, t);
    assert ws[..|ws|] == ws;
    TurnsAddUp(ws, t);
    TurnsByRound(ws, t, |ws|);
    RoundUnfinished(ws, at, |ws|);
    DivUnique(t, Sum(ws), at.lap, InRoundSum(ws, at, |ws|));
  }

  lemma SharesByLap(ws: seq<nat>, t: nat, i: nat)
    requires Weighted(ws) && i < |ws|
    ensures Turn(ws, t).lap * ws[i] <= TurnsOf(ws, t, i) <= (Turn(ws, t).lap + 1) * ws[i]
  {
    TurnsTaken(ws, t, i);
    var at := Turn(ws, t);
    assert InRound(ws, at, i) <= ws[i];
    MulSucc(at.lap, ws[i]);
  }

  /** Its weight for every whole round and at most its weight more, whatever the hashes are. */
  lemma Shares(ws: seq<nat>, t: nat, i: nat)
    requires Weighted(ws) && i < |ws|
    ensures Sum(ws) > 0
    ensures (t / Sum(ws)) * ws[i] <= TurnsOf(ws, t, i) <= (t / Sum(ws) + 1) * ws[i]
  {
    RoundsComplete(ws, t);
    SharesByLap(ws, t, i);
  }

  /** Equal weights stay within one turn of each other. */
  lemma EqualShares(ws: seq<nat>, t: nat, i: nat, j: nat)
    requires Weighted(ws) && i < |ws| && j < |ws| && ws[i] == ws[j]
    ensures TurnsOf(ws, t, i) <= TurnsOf(ws, t, j) + 1
  {
    TurnsTaken(ws, t, i);
    TurnsTaken(ws, t, j);
  }
}
