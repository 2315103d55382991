// What creating and deleting accounts does, what a well-formed code is, and the
// order of the tree.

module ChartOutcomes {
  import opened Common
  import opened ChartOfAccounts

  // --------------------------------------------------------------------- codes

  ghost predicate Digit(c: char) {
    c in {'0', '1', '2', '3', '4', '5', '6', '7', '8', '9'}
  }

  // A digit, followed by n groups of a point and three digits.
  ghost predicate IsCode(code: string, n: nat) {
    if n == 0 then |code| == 1 && Digit(code[0])
    else
      var k := |code| - 4;
      && k >= 0 && code[k] == '.' && Digit(code[k + 1]) && Digit(code[k + 2]) && Digit(code[k + 3])
      && IsCode(code[..k], n - 1)
  }

  ghost predicate CharAt(code: string, i: nat)
    requires i < |code|
  {
    if i % 4 == 1 then code[i] == '.' else IsDigit(code[i])
  }

  ghost predicate CharsFit(code: string) {
    forall i :: 0 <= i < |code| ==> CharAt(code, i)
  }

  lemma {:induction false} IsCodeIff(code: string, n: nat)
    ensures IsCode(code, n) <==> |code| == 4 * n + 1 && CharsFit(code)
  {
    assert forall c :: Digit(c) <==> IsDigit(c);
    if n == 0 {
      if |code| == 1 { assert CharsFit(code) <==> CharAt(code, 0); }
    } else if |code| >= 4 {
      IsCodeIff(code[..|code| - 4], n - 1);
      if |code| == 4 * n + 1 { LastGroup(code, n); }
    }
  }

  lemma {:induction false} LastGroup(code: string, n: nat)
    requires n > 0 && |code| == 4 * n + 1
    ensures var k := |code| - 4;
            CharsFit(code)
            <==> CharsFit(code[..k]) && code[k] == '.'
                 && IsDigit(code[k + 1]) && IsDigit(code[k + 2]) && IsDigit(code[k + 3])
  {
    var k := |code| - 4;
    assert forall i :: 0 <= i < k ==> (CharAt(code[..k], i) <==> CharAt(code, i));
    assert CharAt(code, k) <==> code[k] == '.';
    assert CharAt(code, k + 1) <==> IsDigit(code[k + 1]);
    assert CharAt(code, k + 2) <==> IsDigit(code[k + 2]);
    assert CharAt(code, k + 3) <==> IsDigit(code[k + 3]);
  }

  // The level of a code is its number of segments, of which there are at most
  // five; every other string has level 0.
  lemma {:induction false} LevelOutcome(code: string)
    ensures CodeLevel(code) > 0 ==> CodeLevel(code) <= 5 && IsCode(code, CodeLevel(code) - 1)
    ensures forall n: nat :: n <= 4 && IsCode(code, n) ==> CodeLevel(code) == n + 1
  {
    CodeLevelRange(code);
    assert ValidCode(code) <==> 1 <= |code| <= 17 && (|code| - 1) % 4 == 0 && CharsFit(code) by {
      assert |code| > 0 ==> (CharAt(code, 0) <==> IsDigit(code[0]));
      assert forall i :: 1 <= i < |code| ==>
        (CharAt(code, i) <==> if i % 4 == 1 then code[i] == '.' else IsDigit(code[i]));
    }
    forall n: nat ensures IsCode(code, n) <==> |code| == 4 * n + 1 && CharsFit(code) {
      IsCodeIff(code, n);
    }
  }

  // ---------------------------------------------------------------- operations

  ghost predicate InUse(accounts: seq<Account>, code: string) {
    exists i :: 0 <= i < |accounts| && accounts[i].code == code
  }

  // The parent is a live header one level up, or there is none and the code has
  // one segment.
  ghost predicate FitsUnder(accounts: seq<Account>, parent: Option<nat>, level: nat) {
    match parent
    case None => level == 1
    case Some(p) =>
      p < |accounts| && !accounts[p].deleted && accounts[p].header && level == accounts[p].level + 1
  }

  ghost predicate Creatable(accounts: seq<Account>, n: NewAccount, level: nat) {
    1 <= level <= 5 && IsCode(n.code, level - 1) && !InUse(accounts, n.code) && FitsUnder(accounts, n.parent, level)
  }

  // Creation stores the account as given, live, on the level of its code, and not
  // as a system account; or it changes nothing.
  lemma {:induction false} CreateOutcome(accounts: seq<Account>, n: NewAccount)
    ensures var next := After(accounts, CreateStep(n));
            && (forall level: nat :: Creatable(accounts, n, level) ==>
                  next == accounts + [Account(|accounts|, n.code, n.parent, level, n.header,
                                              false, n.active, n.branch, false)])
            && ((forall level: nat :: !Creatable(accounts, n, level)) ==> next == accounts)
  {
    LevelOutcome(n.code);
    CreatedIff(accounts, n);
    if Create(accounts, n).Ok? {
      assert Creatable(accounts, n, CodeLevel(n.code));
    }
  }

  lemma {:induction false} CreatedIff(accounts: seq<Account>, n: NewAccount)
    ensures Create(accounts, n).Ok?
            <==> CodeLevel(n.code) > 0 && !InUse(accounts, n.code) && FitsUnder(accounts, n.parent, CodeLevel(n.code))
  {
    CodeLevelRange(n.code);
    assert CodeStored(accounts, n.code) <==> InUse(accounts, n.code);
  }

  // Deleting marks a live account that is not a system account, and only marks it.
  lemma {:induction false} DeleteOutcome(accounts: seq<Account>, id: nat)
    ensures var r, next := SoftDelete(accounts, id), After(accounts, DeleteStep(id));
            if id < |accounts| && !accounts[id].deleted && !accounts[id].system
            then && |next| == |accounts| && next[id] == accounts[id].(deleted := true)
                 && (forall i :: 0 <= i < |accounts| && i != id ==> next[i] == accounts[i])
                 && r == Ok(next)
            else && next == accounts
                 && r == Err(if id < |accounts| && !accounts[id].deleted then SystemAccount else NotFound)
  {
  }

  // ------------------------------------------------------------------ the tree

  ghost predicate InInputOrder(input: seq<Account>, ids: seq<nat>) {
    && (forall a :: 0 <= a < |ids| ==> ids[a] in Ids(input))
    && (forall a, b :: 0 <= a < b < |ids| ==> Index(input, ids[a]) < Index(input, ids[b]))
  }

  lemma {:induction false} OneMoreInput(input: seq<Account>, ids: seq<nat>)
    requires input != [] && InInputOrder(input[..|input| - 1], ids) && Distinct(Ids(input))
    ensures InInputOrder(input, ids) && InInputOrder(input, ids + [input[|input| - 1].id])
  {
    var k := |input| - 1;
    assert Ids(input) == Ids(input[..k]) + [input[k].id];
    forall a | 0 <= a < |ids| ensures Index(input, ids[a]) == Index(input[..k], ids[a]) < k {}
    SameIndex(input, k, input[k].id);
  }

  lemma {:induction false} ChildrenInOrder(input: seq<Account>, p: nat)
    requires Distinct(Ids(input))
    ensures InInputOrder(input, ChildrenOf(input, p))
  {
    if input != [] {
      assert Ids(input[..|input| - 1]) == Ids(input)[..|input| - 1];
      ChildrenInOrder(input[..|input| - 1], p);
      OneMoreInput(input, ChildrenOf(input[..|input| - 1], p));
    }
  }

  lemma {:induction false} RootsInOrder(input: seq<Account>, ids: seq<nat>)
    requires Distinct(Ids(input))
    ensures InInputOrder(input, RootsOf(input, ids))
  {
    if input != [] {
      assert Ids(input[..|input| - 1]) == Ids(input)[..|input| - 1];
      RootsInOrder(input[..|input| - 1], ids);
      OneMoreInput(input, RootsOf(input[..|input| - 1], ids));
    }
  }

  // Children and roots are listed in the order of the input: the children of an
  // account are those naming it as parent, the roots those whose parent is not
  // given.
  lemma {:induction false} TreeOutcome(input: seq<Account>, i: nat, p: nat)
    requires Distinct(Ids(input)) && i < |input|
    ensures InInputOrder(input, ChildrenOf(input, p)) && InInputOrder(input, RootsOf(input, Ids(input)))
    ensures input[i].id in ChildrenOf(input, p) <==> input[i].parent == Some(p)
    ensures input[i].id in RootsOf(input, Ids(input))
            <==> input[i].parent == None || input[i].parent.value !in Ids(input)
  {
    ChildrenInOrder(input, p);
    RootsInOrder(input, Ids(input));
    ChildrenMembers(input, p, input[i].id);
    RootsMembers(input, Ids(input), input[i].id);
    forall k | 0 <= k < |input| && input[k].id == input[i].id ensures k == i {
      assert Ids(input)[k] == Ids(input)[i];
    }
  }

  // A run starts without accounts and takes each step in turn.
  lemma {:induction false} RunOutcome(steps: seq<Step>, step: Step)
    ensures Run([]) == []
    ensures Run(steps + [step]) == After(Run(steps), step)
  {
    assert (steps + [step])[..|steps|] == steps;
  }
}
