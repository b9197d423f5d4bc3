/** The last provider attempts of each forwarding profile: every attempt is inserted,
    then the table is pruned to the five newest of that profile.

    `completedAt` stands for the place of the stored text in SQLite's text order,
    which is what `ORDER BY completed_at` compares. */
module AttemptSamples {

  const KEPT := 5

  datatype Sample = Sample(id: nat, profile: string, deliveryId: nat, attempt: int, completedAt: int, success: bool)

  predicate Newer(a: Sample, b: Sample) {
    a.completedAt > b.completedAt || (a.completedAt == b.completedAt && a.id > b.id)
  }

  function NewerIn(samples: set<Sample>, x: Sample): set<Sample> {
    set y | y in samples && y.profile == x.profile && Newer(y, x)
  }

  /** How many samples of the same profile come before `x` in the listing order. */
  function Rank(samples: set<Sample>, x: Sample): nat {
    |NewerIn(samples, x)|
  }

  /** `r` is the first `limit` samples of `profile`, newest first. */
  ghost predicate IsListing(samples: set<Sample>, profile: string, limit: nat, r: seq<Sample>) {
    && |r| <= limit
    && (forall i :: 0 <= i < |r| ==> r[i] in samples && r[i].profile == profile && Rank(samples, r[i]) == i)
    && (forall x :: x in samples && x.profile == profile && Rank(samples, x) < limit ==> x in r)
  }

  function Pruned(samples: set<Sample>, profile: string): set<Sample> {
    set x | x in samples && (x.profile == profile ==> Rank(samples, x) < KEPT)
  }

  function Record(samples: set<Sample>, x: Sample): set<Sample> {
    Pruned(samples + {x}, x.profile)
  }

  /** Ids are handed out in increasing order and tell samples apart. */
  ghost predicate Identified(samples: set<Sample>, nextId: nat) {
    && (forall x :: x in samples ==> x.id < nextId)
    && (forall x, y :: x in samples && y in samples && x.id == y.id ==> x == y)
  }

  // ---------- The pruned table against the full history ----------

  function Kept(history: seq<Sample>): set<Sample> {
    if history == [] then {} else Record(Kept(history[..|history| - 1]), history[|history| - 1])
  }

  ghost predicate IncreasingIds(history: seq<Sample>) {
    forall i, j :: 0 <= i < j < |history| ==> history[i].id < history[j].id
  }

  function All(history: seq<Sample>): set<Sample> {
    set x | x in history
  }

  ghost predicate IsTop(kept: set<Sample>, all: set<Sample>) {
    forall x :: x in kept <==> x in all && Rank(all, x) < KEPT
  }

  lemma RankGrows(small: set<Sample>, large: set<Sample>, x: Sample)
    requires small <= large
    ensures Rank(small, x) <= Rank(large, x)
  {
    Cardinality(NewerIn(small, x), NewerIn(large, x));
  }

  lemma {:induction false} Cardinality(a: set<Sample>, b: set<Sample>)
    requires a <= b
    ensures |a| <= |b|
  {
    if a != {} {
      var x :| x in a;
      Cardinality(a - {x}, b - {x});
    }
  }

  lemma NewerHasLowerRank(samples: set<Sample>, x: Sample, y: Sample)
    requires y in samples && y.profile == x.profile && Newer(y, x)
    ensures Rank(samples, y) < Rank(samples, x)
  {
    assert NewerIn(samples, y) <= NewerIn(samples, x) - {y};
    Cardinality(NewerIn(samples, y), NewerIn(samples, x) - {y});
  }

  /** What is above a top sample is itself at the top, so pruning cannot disturb ranks there. */
  lemma TopRankIsReal(kept: set<Sample>, all: set<Sample>, x: Sample)
    requires IsTop(kept, all) && x in all && Rank(all, x) < KEPT
    ensures NewerIn(kept, x) == NewerIn(all, x)
  {
    forall y | y in NewerIn(all, x) ensures y in kept {
      NewerHasLowerRank(all, x, y);
    }
  }

  /** Whether `y` is kept after `x` is recorded is a matter of its rank in the whole history. */
  ghost predicate KeptRightly(kept: set<Sample>, all: set<Sample>, x: Sample, y: Sample) {
    y in Record(kept, x) <==> Rank(all + {x}, y) < KEPT
  }

  lemma DroppedStaysDropped(kept: set<Sample>, all: set<Sample>, x: Sample, y: Sample)
    requires IsTop(kept, all) && x !in all && y in all && y !in kept
    ensures KeptRightly(kept, all, x, y)
  {
    RankGrows(all, all + {x}, y);
  }

  /** Something above `x` has already been pruned, and is itself below five others. */
  lemma NewIsDropped(kept: set<Sample>, all: set<Sample>, x: Sample, z: Sample)
    requires IsTop(kept, all) && x !in all && z in NewerIn(all, x) && z !in kept
    ensures KeptRightly(kept, all, x, x)
  {
    NewerHasLowerRank(all + {x}, x, z);
    RankGrows(all, all + {x}, z);
    TopFills(kept, all, z, x);
    RankGrows(kept, kept + {x}, x);
  }

  lemma NewIsRanked(kept: set<Sample>, all: set<Sample>, x: Sample)
    requires IsTop(kept, all) && x !in all && NewerIn(all, x) <= kept
    ensures KeptRightly(kept, all, x, x)
  {
    assert NewerIn(kept + {x}, x) == NewerIn(all + {x}, x) by {
      forall z | z in NewerIn(all + {x}, x) ensures z in kept { assert z in NewerIn(all, x); }
    }
  }

  lemma OneMoreSample(samples: set<Sample>, x: Sample, y: Sample)
    ensures NewerIn(samples + {x}, y)
         == NewerIn(samples, y) + (if x.profile == y.profile && Newer(x, y) then {x} else {})
  {
  }

  lemma OldIsRanked(kept: set<Sample>, all: set<Sample>, x: Sample, y: Sample)
    requires IsTop(kept, all) && x !in all && y in kept
    ensures KeptRightly(kept, all, x, y)
  {
    TopRankIsReal(kept, all, y);
    OneMoreSample(kept, x, y);
    OneMoreSample(all, x, y);
    assert Rank(kept + {x}, y) == Rank(all + {x}, y);
    if x.profile != y.profile { assert NewerIn(all + {x}, y) == NewerIn(all, y); }
  }

  lemma RecordKeepsTop(kept: set<Sample>, all: set<Sample>, x: Sample)
    requires IsTop(kept, all) && x !in all
    ensures IsTop(Record(kept, x), all + {x})
  {
    forall y | y in all + {x} ensures KeptRightly(kept, all, x, y) {
      if y in all && y !in kept {
        DroppedStaysDropped(kept, all, x, y);
      } else if y != x {
        OldIsRanked(kept, all, x, y);
      } else if z :| z in NewerIn(all, x) && z !in kept {
        NewIsDropped(kept, all, x, z);
      } else {
        NewIsRanked(kept, all, x);
      }
    }
  }

  /** If a pruned sample is above `x`, then at least five kept ones are. */
  lemma TopFills(kept: set<Sample>, all: set<Sample>, z: Sample, x: Sample)
    requires IsTop(kept, all) && z in NewerIn(all, x) && z !in kept
    ensures Rank(kept, x) >= KEPT
  {
    var best := Lowest(all, z);
    assert NewerIn(all, best) <= NewerIn(kept, x) by {
      forall y | y in NewerIn(all, best) ensures y in kept {
        NewerHasLowerRank(all, best, y);
        if y !in kept { assert false; }
      }
    }
    Cardinality(NewerIn(all, best), NewerIn(kept, x));
  }

  /** The first sample in order, at or above `z`, that is not among the first five. */
  lemma {:induction false} Lowest(all: set<Sample>, z: Sample) returns (best: Sample)
    requires z in all && Rank(all, z) >= KEPT
    ensures best in all && best.profile == z.profile && Rank(all, best) >= KEPT
    ensures best == z || Newer(best, z)
    ensures forall y :: y in NewerIn(all, best) ==> Rank(all, y) < KEPT
    decreases Rank(all, z)
  {
    if y :| y in NewerIn(all, z) && Rank(all, y) >= KEPT {
      NewerHasLowerRank(all, z, y);
      best := Lowest(all, y);
    } else {
      best := z;
    }
  }

  /** After any attempts the table holds exactly the five newest of every profile. */
  lemma {:induction false} KeptIsTop(history: seq<Sample>)
    requires IncreasingIds(history)
    ensures IsTop(Kept(history), All(history))
  {
    if history != [] {
      var init, x := history[..|history| - 1], history[|history| - 1];
      KeptIsTop(init);
      assert x !in All(init);
      RecordKeepsTop(Kept(init), All(init), x);
      assert All(history) == All(init) + {x};
    }
  }

  lemma DroppedIsOlder(kept: set<Sample>, all: set<Sample>, x: Sample, y: Sample)
    requires IsTop(kept, all) && x in kept && y in all && y !in kept && x.profile == y.profile && x.id != y.id
    ensures x.completedAt > y.completedAt || (x.completedAt == y.completedAt && x.id > y.id)
  {
    if Newer(y, x) { NewerHasLowerRank(all, x, y); }
  }

  lemma IdsTellApart(history: seq<Sample>, x: Sample, y: Sample)
    requires IncreasingIds(history) && x in history && y in history && x != y
    ensures x.id != y.id
  {
    var i :| 0 <= i < |history| && history[i] == x;
    var j :| 0 <= j < |history| && history[j] == y;
  }

  /** What was pruned is older than everything of its profile that was kept. */
  lemma PrunedIsOlder(history: seq<Sample>, x: Sample, y: Sample)
    requires IncreasingIds(history) && x in Kept(history) && y in history && y !in Kept(history) && x.profile == y.profile
    ensures x.completedAt > y.completedAt || (x.completedAt == y.completedAt && x.id > y.id)
  {
    KeptIsTop(history);
    assert x in All(history) && y in All(history);
    IdsTellApart(history, x, y);
    DroppedIsOlder(Kept(history), All(history), x, y);
  }

  /** Listing at most five samples of the pruned table lists the unpruned history. */
  lemma ListingIsHistory(history: seq<Sample>, profile: string, limit: nat, r: seq<Sample>)
    requires IncreasingIds(history) && limit <= KEPT
    ensures IsListing(Kept(history), profile, limit, r) <==> IsListing(All(history), profile, limit, r)
  {
    var kept, all := Kept(history), All(history);
    KeptIsTop(history);
    forall x | x in kept ensures Rank(kept, x) == Rank(all, x) {
      TopRankIsReal(kept, all, x);
    }
  }
}
