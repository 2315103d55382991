// Straight-line depreciation, capped at the salvage value and rounded to cents.
// All amounts are whole cents.

module FixedAssets {
  import opened Common

  datatype Asset = Asset(active: bool, price: int, salvage: int, life: int, accumulated: int)

  // A journal entry: debit depreciation expense, credit accumulated depreciation.
  datatype Posting = Posting(asset: nat, amount: int)

  datatype Books = Books(assets: seq<Asset>, postings: seq<Posting>)

  datatype DepreciationError = RunFailed

  function Min(x: int, y: int): (m: int)
    ensures m <= x && m <= y && (m == x || m == y)
  {
    if x < y then x else y
  }

  // What one run charges an asset; 0 when it skips the asset.  Dividing by a
  // life of 0 gives Infinity in the original, which the cap cuts to the rest.
  function Charge(a: Asset): int {
    var remaining := a.price - a.accumulated - a.salvage;
    if remaining <= 0 then 0 else
      var monthly := if a.life == 0 then remaining as real else (a.price - a.salvage) as real / a.life as real;
      var capped := if remaining as real < monthly then remaining as real else monthly;
      if Round(capped) <= 0 then 0 else Round(capped)
  }

  function ChargeDue(a: Asset): int {
    if a.active then Charge(a) else 0
  }

  // What a run charges each asset.
  function Charges(assets: seq<Asset>): (r: seq<int>)
    ensures |r| == |assets| && forall i :: 0 <= i < |r| ==> r[i] == ChargeDue(assets[i])
  {
    seq(|assets|, i requires 0 <= i < |assets| => ChargeDue(assets[i]))
  }

  // The books once the first k charges are stored and posted.
  function Charged(books: Books, charges: seq<int>, k: nat): (b: Books)
    requires k <= |charges| == |books.assets|
    ensures |b.assets| == |books.assets|
  {
    if k == 0 then books else
      var b := Charged(books, charges, k - 1);
      if charges[k - 1] <= 0 then b else ChargedAsset(b, k - 1, charges[k - 1])
  }

  // One charge stored and posted.
  function ChargedAsset(b: Books, i: nat, cents: int): Books
    requires i < |b.assets|
  {
    Books(b.assets[i := b.assets[i].(accumulated := b.assets[i].accumulated + cents)],
          b.postings + [Posting(i, cents)])
  }

  // The charge is stored in a transaction of the asset, and the posting is
  // committed in another one, opened and finished inside it.  An attempt stores
  // both, or its posting is refused and nothing stays, or its posting stays while
  // the asset's transaction is lost.
  datatype Ending = Stored | Refused | Lost

  function AfterAttempt(b: Books, i: nat, cents: int, ending: Ending): Books
    requires i < |b.assets|
  {
    match ending
    case Stored => ChargedAsset(b, i, cents)
    case Refused => b
    case Lost => b.(postings := b.postings + [Posting(i, cents)])
  }

  // Where a run fails: the first asset due from position `at` on is refused or
  // lost, which ends the run; what came before it stays.  With no open period
  // `at` is 0 and nothing is lost.
  datatype Cut = Cut(at: nat, lost: bool)

  function EndingAt(cut: Cut, i: nat): Ending {
    if i < cut.at then Stored else if cut.lost then Lost else Refused
  }

  // The first asset due from a position on, or the number of assets.
  function FirstDue(assets: seq<Asset>, at: nat): (i: nat)
    ensures i <= |assets|
    ensures i < |assets| ==> at <= i && ChargeDue(assets[i]) > 0
    ensures forall k :: at <= k < i ==> ChargeDue(assets[k]) <= 0
    decreases |assets| - at
  {
    if at >= |assets| then |assets|
    else if ChargeDue(assets[at]) > 0 then at
    else FirstDue(assets, at + 1)
  }

  predicate Interrupted(assets: seq<Asset>, cut: Cut) {
    FirstDue(assets, cut.at) < |assets|
  }

  function RunDepreciation(books: Books, cut: Cut): (b: Books)
    ensures |b.assets| == |books.assets|
  {
    var b, i := ChargedUpTo(books, cut.at, |books.assets|), FirstDue(books.assets, cut.at);
    if i < |books.assets| then AfterAttempt(b, i, ChargeDue(books.assets[i]), EndingAt(cut, i)) else b
  }

  // The books once the loop has passed i assets.
  function ChargedUpTo(books: Books, stop: nat, i: nat): (b: Books)
    requires i <= |books.assets|
    ensures |b.assets| == |books.assets|
  {
    Charged(books, Charges(books.assets), Min(stop, i))
  }

  class FixedAssetService {
    var assets: seq<Asset>
    var postings: seq<Posting>

    constructor (assets: seq<Asset>)
      ensures View() == Books(assets, [])
    {
      this.assets, this.postings := assets, [];
    }

    function View(): Books
      reads this
    {
      Books(assets, postings)
    }

    method Run(cut: Cut) returns (failure: Option<DepreciationError>, count: nat)
      modifies this
      ensures View() == RunDepreciation(old(View()), cut)
      ensures failure == if Interrupted(old(assets), cut) then Some(RunFailed) else None
      ensures |postings| == |old(postings)| + count + if failure.Some? && cut.lost then 1 else 0
    {
      ghost var start := View();
      count := 0;
      for i := 0 to |assets|
        invariant |assets| == |start.assets|
        invariant View() == ChargedUpTo(start, cut.at, i)
        invariant |postings| == |start.postings| + count
        invariant forall k :: cut.at <= k < i ==> ChargeDue(start.assets[k]) <= 0
      {
        ChargedNext(start, cut.at, i);
        var cents := 0;
        if assets[i].active {
          cents := MonthlyCharge(assets[i]);
        }
        if cents > 0 {
          var stored := ChargeAsset(i, cents, EndingAt(cut, i));
          if !stored {
            FailsAt(start, cut, i);
            return Some(RunFailed), count;
          }
          count := count + 1;
        }
      }
      return None, count;
    }

    // The asset's transaction with the posting's transaction inside it.
    method ChargeAsset(i: nat, cents: int, ending: Ending) returns (stored: bool)
      requires i < |assets|
      modifies this
      ensures View() == AfterAttempt(old(View()), i, cents, ending)
      ensures stored <==> ending.Stored?
    {
      var saved := assets;
      assets := assets[i := assets[i].(accumulated := assets[i].accumulated + cents)];
      if ending.Refused? {
        assets := saved;
        return false;
      }
      postings := postings + [Posting(i, cents)];
      if ending.Lost? {
        assets := saved;
        return false;
      }
      return true;
    }

    static method MonthlyCharge(a: Asset) returns (cents: int)
      ensures cents == Charge(a)
    {
      var remaining := a.price - a.accumulated - a.salvage;
      if remaining <= 0 {
        return 0;
      }
      var monthly := if a.life == 0 then remaining as real else (a.price - a.salvage) as real / a.life as real;
      if (remaining as real) < monthly {
        monthly := remaining as real;
      }
      cents := Round(monthly);
      if cents <= 0 {
        return 0;
      }
    }
  }

  // -------------------------------------------------------------- closed form

  function Depreciable(a: Asset): int {
    a.price - a.salvage
  }

  // The straight-line charge, rounded half up to a cent.
  function Monthly(a: Asset): int
    requires a.life > 0
  {
    Round(Depreciable(a) as real / a.life as real)
  }

  // Accumulated depreciation after n runs of an asset that starts at zero.
  function ClosedForm(a: Asset, n: nat): int {
    if Depreciable(a) <= 0 || a.life < 0 then 0
    else if a.life == 0 then if n == 0 then 0 else Depreciable(a)
    else Min(n * Monthly(a), Depreciable(a))
  }

  lemma {:induction false} MonthlyNotNegative(a: Asset)
    requires a.life > 0 && Depreciable(a) >= 0
    ensures 0 <= Monthly(a) <= Depreciable(a)
  {
    var d, l := Depreciable(a) as real, a.life as real;
    assert 0.0 <= d / l <= d;
  }

  // One run on top of n: the cap makes min(n m, D) into min((n + 1) m, D).
  lemma {:induction false} ChargeCloses(a: Asset, n: nat)
    requires a.accumulated == ClosedForm(a, n)
    ensures a.accumulated + Charge(a) == ClosedForm(a, n + 1)
  {
    var remaining := Depreciable(a) - a.accumulated;
    if Depreciable(a) > 0 && a.life > 0 {
      MonthlyNotNegative(a);
      assert (n + 1) * Monthly(a) == n * Monthly(a) + Monthly(a);
      var monthly := Depreciable(a) as real / a.life as real;
      if 0 < remaining && (remaining as real) < monthly {
        assert Round(remaining as real) == remaining <= Monthly(a);
      } else if 0 < remaining {
        assert Round(monthly) <= remaining;
      }
    } else if Depreciable(a) > 0 && a.life == 0 {
      assert remaining > 0 ==> Round(remaining as real) == remaining;
    } else if Depreciable(a) > 0 {
      assert (Depreciable(a) as real) / (a.life as real) < 0.0;
    }
  }

  // The nearest whole number, halves going up, and never below zero.
  ghost predicate RoundsTo(x: real, n: int) {
    if x < -0.5 then n == 0 else n >= 0 && n as real - 0.5 <= x < n as real + 0.5
  }

  // What a run charges any asset: nothing when it is not active or down to its
  // salvage value, else the straight-line amount or the rest, whichever is less,
  // to the cent.
  lemma {:induction false} ChargeOutcome(a: Asset)
    ensures var rest := a.price - a.salvage - a.accumulated;
            && (!a.active || rest <= 0 ==> ChargeDue(a) == 0)
            && (a.active && rest > 0 && a.life == 0 ==> ChargeDue(a) == rest)
            && (a.active && rest > 0 && a.life != 0 ==>
                  var month := (a.price - a.salvage) as real / a.life as real;
                  if month < rest as real then RoundsTo(month, ChargeDue(a)) else ChargeDue(a) == rest)
  {
    var rest := a.price - a.salvage - a.accumulated;
    if rest > 0 { assert Round(rest as real) == rest; }
  }

  // ---------------------------------------------------------------- whole runs

  function PostedFor(postings: seq<Posting>, i: nat): int {
    if postings == [] then 0 else
      var p := postings[|postings| - 1];
      PostedFor(postings[..|postings| - 1], i) + if p.asset == i then p.amount else 0
  }

  ghost predicate Nonnegative(charges: seq<int>) {
    forall i :: 0 <= i < |charges| ==> charges[i] >= 0
  }

  lemma {:induction false} ChargedOne(books: Books, charges: seq<int>, k: nat, i: nat)
    requires k <= |charges| == |books.assets| && i < |charges| && Nonnegative(charges)
    ensures Charged(books, charges, k).assets[i]
            == if i < k then books.assets[i].(accumulated := books.assets[i].accumulated + charges[i])
               else books.assets[i]
  {
    if k > 0 {
      ChargedOne(books, charges, k - 1, i);
    }
  }

  // What the loop finds at asset i, and what it leaves.
  lemma {:induction false} ChargedNext(books: Books, stop: nat, i: nat)
    requires i < |books.assets|
    ensures var before, after := ChargedUpTo(books, stop, i), ChargedUpTo(books, stop, i + 1);
            var cents := ChargeDue(books.assets[i]);
            && before.assets[i] == books.assets[i]
            && after == if stop <= i || cents <= 0 then before else ChargedAsset(before, i, cents)
  {
    ChargedOne(books, Charges(books.assets), Min(stop, i), i);
  }

  // The first attempt that is not stored ends the run there.
  lemma {:induction false} FailsAt(books: Books, cut: Cut, i: nat)
    requires cut.at <= i < |books.assets| && ChargeDue(books.assets[i]) > 0
    requires forall k :: cut.at <= k < i ==> ChargeDue(books.assets[k]) <= 0
    ensures FirstDue(books.assets, cut.at) == i
    ensures RunDepreciation(books, cut)
            == AfterAttempt(ChargedUpTo(books, cut.at, i), i, ChargeDue(books.assets[i]), EndingAt(cut, i))
  {
    assert Min(cut.at, i) == Min(cut.at, |books.assets|);
  }

  // What the first k charges post for asset i.
  function PostedBy(books: Books, charges: seq<int>, k: nat, i: nat): int
    requires k <= |charges| == |books.assets|
  {
    PostedFor(Charged(books, charges, k).postings, i)
  }

  lemma {:induction false} PostedOne(books: Books, charges: seq<int>, k: nat, i: nat)
    requires k <= |charges| == |books.assets| && i < |charges| && Nonnegative(charges)
    ensures PostedBy(books, charges, k, i) == PostedBy(books, charges, 0, i) + if i < k then charges[i] else 0
  {
    if k > 0 {
      PostedOne(books, charges, k - 1, i);
      PostedNext(books, charges, k, i);
    }
  }

  lemma {:induction false} PostedNext(books: Books, charges: seq<int>, k: nat, i: nat)
    requires 0 < k <= |charges| == |books.assets| && i < |charges| && Nonnegative(charges)
    ensures PostedBy(books, charges, k, i) == PostedBy(books, charges, k - 1, i) + if i == k - 1 then charges[i] else 0
  {
    var before := Charged(books, charges, k - 1);
    if charges[k - 1] > 0 {
      assert Charged(books, charges, k) == ChargedAsset(before, k - 1, charges[k - 1]);
      OneMorePosting(before.postings, Posting(k - 1, charges[k - 1]), i);
    } else {
      assert Charged(books, charges, k) == before;
    }
  }

  lemma {:induction false} OneMorePosting(postings: seq<Posting>, p: Posting, i: nat)
    ensures PostedFor(postings + [p], i) == PostedFor(postings, i) + if p.asset == i then p.amount else 0
  {
    assert (postings + [p])[..|postings|] == postings;
  }

  // The books after a series of runs, each of which may fail somewhere.
  function Series(assets: seq<Asset>, cuts: seq<Cut>): (b: Books)
    ensures |b.assets| == |assets|
  {
    if cuts == [] then Books(assets, [])
    else RunDepreciation(Series(assets, cuts[..|cuts| - 1]), cuts[|cuts| - 1])
  }

  // How many of the runs got past asset i.
  function RunsPassing(cuts: seq<Cut>, i: nat): nat {
    if cuts == [] then 0 else RunsPassing(cuts[..|cuts| - 1], i) + if i < cuts[|cuts| - 1].at then 1 else 0
  }

  // The run posts a charge of asset i and loses the update.
  predicate Loses(assets: seq<Asset>, cut: Cut, i: nat) {
    cut.lost && i < |assets| && FirstDue(assets, cut.at) == i
  }

  // The charges of asset i that were posted and lost.
  function LostCharges(assets: seq<Asset>, cuts: seq<Cut>, i: nat): int
    requires i < |assets|
  {
    if cuts == [] then 0 else
      var before, k := Series(assets, cuts[..|cuts| - 1]).assets, |cuts| - 1;
      LostCharges(assets, cuts[..k], i) + if Loses(before, cuts[k], i) then ChargeDue(before[i]) else 0
  }

  // Asset i is where n runs leave it, and what was posted for it exceeds that by
  // the lost charges.
  ghost predicate OnSchedule(start: Asset, b: Books, i: nat, n: nat, lost: int) {
    && i < |b.assets|
    && b.assets[i] == start.(accumulated := if start.active then ClosedForm(start, n) else 0)
    && PostedFor(b.postings, i) == b.assets[i].accumulated + lost
  }

  lemma {:induction false} RunKeepsSchedule(start: Asset, b: Books, i: nat, n: nat, lost: int, cut: Cut)
    requires OnSchedule(start, b, i, n, lost)
    ensures OnSchedule(start, RunDepreciation(b, cut), i, if i < cut.at then n + 1 else n,
                       lost + if Loses(b.assets, cut, i) then ChargeDue(b.assets[i]) else 0)
  {
    RunStores(b, cut, i);
    RunPosts(b, cut, i);
    var now := b.assets[i];
    assert ClosedForm(now, n) == ClosedForm(start, n) && ClosedForm(now, n + 1) == ClosedForm(start, n + 1);
    if start.active { ChargeCloses(now, n); }
  }

  lemma {:induction false} RunStores(b: Books, cut: Cut, i: nat)
    requires i < |b.assets|
    ensures RunDepreciation(b, cut).assets[i]
            == if i < cut.at then b.assets[i].(accumulated := b.assets[i].accumulated + ChargeDue(b.assets[i]))
               else b.assets[i]
  {
    ChargedOne(b, Charges(b.assets), Min(cut.at, |b.assets|), i);
  }

  lemma {:induction false} RunPosts(b: Books, cut: Cut, i: nat)
    requires i < |b.assets|
    ensures PostedFor(RunDepreciation(b, cut).postings, i)
            == PostedFor(b.postings, i)
               + if i < cut.at || Loses(b.assets, cut, i) then ChargeDue(b.assets[i]) else 0
  {
    var charges, k, f := Charges(b.assets), Min(cut.at, |b.assets|), FirstDue(b.assets, cut.at);
    assert PostedBy(b, charges, k, i) == PostedFor(b.postings, i) + (if i < k then charges[i] else 0) by {
      PostedOne(b, charges, k, i);
    }
    if f < |b.assets| {
      OneMorePosting(Charged(b, charges, k).postings, Posting(f, charges[f]), i);
    }
  }

  // Main theorem: after any series of runs, wherever and however each failed, an
  // active asset that started at zero has accumulated exactly min(j m, D) for the
  // j runs that passed it, and the amounts posted for it add up to that plus the
  // charges that were posted and lost.
  lemma {:induction false} SeriesClosedForm(assets: seq<Asset>, cuts: seq<Cut>, i: nat)
    requires i < |assets| && assets[i].accumulated == 0
    ensures OnSchedule(assets[i], Series(assets, cuts), i, RunsPassing(cuts, i), LostCharges(assets, cuts, i))
  {
    if cuts == [] {
      if assets[i].life > 0 && Depreciable(assets[i]) > 0 { MonthlyNotNegative(assets[i]); }
    } else {
      var k := |cuts| - 1;
      SeriesClosedForm(assets, cuts[..k], i);
      NextRun(assets, cuts, i, RunsPassing(cuts[..k], i), LostCharges(assets, cuts[..k], i));
    }
  }

  lemma {:induction false} NextRun(assets: seq<Asset>, cuts: seq<Cut>, i: nat, n: nat, lost: int)
    requires cuts != [] && i < |assets|
    requires var before := cuts[..|cuts| - 1];
             n == RunsPassing(before, i) && lost == LostCharges(assets, before, i)
             && OnSchedule(assets[i], Series(assets, before), i, n, lost)
    ensures OnSchedule(assets[i], Series(assets, cuts), i, RunsPassing(cuts, i), LostCharges(assets, cuts, i))
  {
    var k := |cuts| - 1;
    var b := Series(assets, cuts[..k]);
    RunKeepsSchedule(assets[i], b, i, n, lost, cuts[k]);
    assert Series(assets, cuts) == RunDepreciation(b, cuts[k]);
    assert RunsPassing(cuts, i) == if i < cuts[k].at then n + 1 else n;
    assert LostCharges(assets, cuts, i) == lost + if Loses(b.assets, cuts[k], i) then ChargeDue(b.assets[i]) else 0;
  }

  predicate LosesAt(assets: seq<Asset>, cuts: seq<Cut>, k: nat, i: nat)
    requires k < |cuts|
  {
    Loses(Series(assets, cuts[..k]).assets, cuts[k], i)
  }

  ghost predicate NothingLost(assets: seq<Asset>, cuts: seq<Cut>, i: nat) {
    forall k :: 0 <= k < |cuts| ==> !LosesAt(assets, cuts, k, i)
  }

  lemma {:induction false} LostChargesIff(assets: seq<Asset>, cuts: seq<Cut>, i: nat)
    requires i < |assets|
    ensures LostCharges(assets, cuts, i) >= 0
    ensures LostCharges(assets, cuts, i) == 0 <==> NothingLost(assets, cuts, i)
  {
    if cuts != [] {
      var n := |cuts| - 1;
      LostChargesIff(assets, cuts[..n], i);
      NothingLostGrows(assets, cuts, i);
    }
  }

  lemma {:induction false} NothingLostGrows(assets: seq<Asset>, cuts: seq<Cut>, i: nat)
    requires cuts != []
    ensures var n := |cuts| - 1;
            NothingLost(assets, cuts, i) <==> NothingLost(assets, cuts[..n], i) && !LosesAt(assets, cuts, n, i)
  {
    var n := |cuts| - 1;
    forall k | 0 <= k < n ensures LosesAt(assets, cuts[..n], k, i) <==> LosesAt(assets, cuts, k, i) {
      assert cuts[..n][..k] == cuts[..k];
    }
  }

  // The journal never has less than the asset register, and the two agree if and
  // only if no run lost a charge of the asset after posting it.
  lemma {:induction false} PostingsAgreeIff(assets: seq<Asset>, cuts: seq<Cut>, i: nat)
    requires i < |assets| && assets[i].accumulated == 0
    ensures var b := Series(assets, cuts);
            && PostedFor(b.postings, i) >= b.assets[i].accumulated
            && (PostedFor(b.postings, i) == b.assets[i].accumulated <==> NothingLost(assets, cuts, i))
  {
    SeriesClosedForm(assets, cuts, i);
    LostChargesIff(assets, cuts, i);
  }

  // A charge of 100 is posted and lost, and the next run posts it again: 100
  // accumulated, 200 in the journal.
  lemma {:induction false} LostChargeIsPostedAgain()
    ensures var a := Asset(true, 1200, 0, 12, 0);
            var b := Series([a], [Cut(0, true), Cut(1, false)]);
            b.assets[0].accumulated == 100 && PostedFor(b.postings, 0) == 200
  {
    var a := Asset(true, 1200, 0, 12, 0);
    var cuts := [Cut(0, true), Cut(1, false)];
    assert Monthly(a) == 100 && ChargeDue(a) == 100;
    assert cuts[..1] == [Cut(0, true)] && cuts[..1][..0] == [];
    SeriesClosedForm([a], cuts, 0);
    assert Series([a], []).assets == [a];
    assert LostCharges([a], cuts[..1], 0) == 100;
    assert RunsPassing(cuts[..1], 0) == 0;
  }

  function CeilDiv(d: int, m: int): int
    requires m >= 1
  {
    (d + m - 1) / m
  }

  // Depreciation never passes D, and reaches it after exactly ceil(D/m) runs.
  lemma {:induction false} FullyDepreciatedIff(a: Asset, n: nat)
    requires a.life > 0 && Depreciable(a) > 0
    ensures 0 <= ClosedForm(a, n) <= Depreciable(a)
    ensures Monthly(a) >= 1 ==>
              (ClosedForm(a, n) == Depreciable(a) <==> n >= CeilDiv(Depreciable(a), Monthly(a)))
    ensures Monthly(a) == 0 ==> ClosedForm(a, n) == 0
  {
    MonthlyNotNegative(a);
    assert n * Monthly(a) >= 0;
    if Monthly(a) >= 1 {
      CoversIff(Depreciable(a), Monthly(a), n);
    }
  }

  lemma {:induction false} CoversIff(d: int, m: int, n: nat)
    requires m >= 1
    ensures n * m >= d <==> n >= CeilDiv(d, m)
  {
    CeilDivCovers(d, m);
    if n >= CeilDiv(d, m) {
      TimesKeepsOrder(CeilDiv(d, m), n, m);
    } else {
      TimesKeepsOrder(n, CeilDiv(d, m) - 1, m);
    }
  }

  lemma {:induction false} CeilDivCovers(d: int, m: int)
    requires m >= 1
    ensures (CeilDiv(d, m) - 1) * m < d <= CeilDiv(d, m) * m
  {
    var c := CeilDiv(d, m);
    assert c * m + (d + m - 1) % m == d + m - 1;
    assert (c - 1) * m == c * m - m;
  }

  lemma {:induction false} TimesKeepsOrder(a: int, b: int, m: int)
    requires a <= b && m >= 1
    ensures a * m <= b * m
  {
  }
}
