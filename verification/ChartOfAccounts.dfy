// The chart of accounts: the level rules of account creation and the tree
// builder.  An account's id is its position in storage; deleting marks it.

module ChartOfAccounts {
  import opened Common

  const MAX_LEVEL := 5

  datatype Account = Account(
    id: nat, code: string, parent: Option<nat>, level: nat,
    header: bool, system: bool, active: bool, branch: Option<nat>, deleted: bool)

  datatype CoaError = InvalidCode | CodeTaken | ParentNotFound | ParentNotHeader
    | WrongLevel | CodeNotUnique | NotFound | SystemAccount

  // ------------------------------------------------------------- account codes

  predicate IsDigit(c: char) {
    '0' <= c <= '9'
  }

  // ^\d(\.\d{3}){0,4}$
  predicate ValidCode(code: string) {
    && 1 <= |code| <= 17
    && (|code| - 1) % 4 == 0
    && IsDigit(code[0])
    && forall i :: 1 <= i < |code| ==> if i % 4 == 1 then code[i] == '.' else IsDigit(code[i])
  }

  function Dots(code: string): nat {
    if code == "" then 0 else Dots(code[..|code| - 1]) + if code[|code| - 1] == '.' then 1 else 0
  }

  // code.split('.').length for a well-formed code, 0 otherwise.
  function CodeLevel(code: string): nat {
    if ValidCode(code) then Dots(code) + 1 else 0
  }

  lemma {:induction false} DotsOfPrefix(code: string, k: nat)
    requires ValidCode(code) && k <= |code|
    ensures Dots(code[..k]) == (k + 2) / 4
  {
    if k > 0 {
      assert code[..k][..k - 1] == code[..k - 1];
      DotsOfPrefix(code, k - 1);
    }
  }

  lemma {:induction false} CodeLevelRange(code: string)
    ensures CodeLevel(code) <= MAX_LEVEL
    ensures CodeLevel(code) >= 1 <==> ValidCode(code)
    ensures ValidCode(code) ==> |code| == 4 * CodeLevel(code) - 3
  {
    if ValidCode(code) {
      DotsOfPrefix(code, |code|);
      assert code[..|code|] == code;
    }
  }

  // --------------------------------------------------------------- operations

  datatype NewAccount = NewAccount(
    code: string, parent: Option<nat>, header: bool, active: bool, branch: Option<nat>)

  predicate Live(accounts: seq<Account>, id: nat) {
    id < |accounts| && !accounts[id].deleted
  }

  predicate CodeStored(accounts: seq<Account>, code: string) {
    exists i :: 0 <= i < |accounts| && accounts[i].code == code
  }

  // The lookup of the code passes over deleted accounts; the unique index on
  // codes, which refuses the insertion, does not.
  function Create(accounts: seq<Account>, n: NewAccount): Result<seq<Account>, CoaError> {
    var level := CodeLevel(n.code);
    if level < 1 || level > MAX_LEVEL then Err(InvalidCode)
    else if exists i :: 0 <= i < |accounts| && accounts[i].code == n.code && !accounts[i].deleted then Err(CodeTaken)
    else if n.parent.Some? && !Live(accounts, n.parent.value) then Err(ParentNotFound)
    else if n.parent.Some? && !accounts[n.parent.value].header then Err(ParentNotHeader)
    else if level != (if n.parent.Some? then accounts[n.parent.value].level + 1 else 1) then Err(WrongLevel)
    else if CodeStored(accounts, n.code) then Err(CodeNotUnique)
    else Ok(accounts + [Account(|accounts|, n.code, n.parent, level, n.header, false, n.active, n.branch, false)])
  }

  function SoftDelete(accounts: seq<Account>, id: nat): Result<seq<Account>, CoaError> {
    if !Live(accounts, id) then Err(NotFound)
    else if accounts[id].system then Err(SystemAccount)
    else Ok(accounts[id := accounts[id].(deleted := true)])
  }

  // ------------------------------------------------------------------ the tree

  function Ids(accounts: seq<Account>): (r: seq<nat>)
    ensures |r| == |accounts| && forall i :: 0 <= i < |r| ==> r[i] == accounts[i].id
  {
    seq(|accounts|, i requires 0 <= i < |accounts| => accounts[i].id)
  }

  // The accounts that name p as parent, in input order.
  function ChildrenOf(accounts: seq<Account>, p: nat): seq<nat> {
    if accounts == [] then [] else
      var a := accounts[|accounts| - 1];
      ChildrenOf(accounts[..|accounts| - 1], p) + if a.parent == Some(p) then [a.id] else []
  }

  predicate IsRoot(a: Account, ids: seq<nat>) {
    a.parent.None? || a.parent.value !in ids
  }

  // The accounts without a parent among the given ids, in input order.
  function RootsOf(accounts: seq<Account>, ids: seq<nat>): seq<nat> {
    if accounts == [] then [] else
      var a := accounts[|accounts| - 1];
      RootsOf(accounts[..|accounts| - 1], ids) + if IsRoot(a, ids) then [a.id] else []
  }

  class CoaService {
    var accounts: seq<Account>

    constructor ()
      ensures accounts == []
    {
      accounts := [];
    }

    method CreateAccount(n: NewAccount) returns (failure: Option<CoaError>)
      modifies this
      ensures Settles(Create(old(accounts), n), old(accounts), accounts, failure)
    {
      CodeLevelRange(n.code);
      var level := CodeLevel(n.code);
      if level < 1 {
        return Some(InvalidCode);
      }
      for i := 0 to |accounts|
        invariant forall k :: 0 <= k < i ==> accounts[k].code != n.code || accounts[k].deleted
      {
        if accounts[i].code == n.code && !accounts[i].deleted {
          return Some(CodeTaken);
        }
      }
      var parentLevel := 0;
      if n.parent.Some? {
        if !Live(accounts, n.parent.value) {
          return Some(ParentNotFound);
        }
        if !accounts[n.parent.value].header {
          return Some(ParentNotHeader);
        }
        parentLevel := accounts[n.parent.value].level;
      }
      if level != parentLevel + 1 {
        return Some(WrongLevel);
      }
      if CodeStored(accounts, n.code) {
        return Some(CodeNotUnique);
      }
      accounts := accounts + [Account(|accounts|, n.code, n.parent, level, n.header, false, n.active, n.branch, false)];
      return None;
    }

    method DeleteAccount(id: nat) returns (failure: Option<CoaError>)
      modifies this
      ensures Settles(SoftDelete(old(accounts), id), old(accounts), accounts, failure)
    {
      if !Live(accounts, id) {
        return Some(NotFound);
      }
      if accounts[id].system {
        return Some(SystemAccount);
      }
      accounts := accounts[id := accounts[id].(deleted := true)];
      return None;
    }

    // The first loop of buildTree: a node without children for every account.
    static method BareNodes(input: seq<Account>) returns (children: map<nat, seq<nat>>)
      ensures forall id :: id in children <==> id in Ids(input)
      ensures forall id :: id in children ==> children[id] == []
    {
      children := map[];
      for i := 0 to |input|
        invariant forall id :: id in children <==> id in Ids(input)[..i]
        invariant forall id :: id in children ==> children[id] == []
      {
        children := children[input[i].id := []];
      }
      assert Ids(input)[..|input|] == Ids(input);
    }

    // buildTree: the nodes by id with their children, and the roots.
    static method BuildTree(input: seq<Account>) returns (children: map<nat, seq<nat>>, roots: seq<nat>)
      requires Distinct(Ids(input))
      ensures forall id :: id in children <==> id in Ids(input)
      ensures forall id :: id in children ==> children[id] == ChildrenOf(input, id)
      ensures roots == RootsOf(input, Ids(input))
    {
      children := BareNodes(input);
      roots := [];
      for i := 0 to |input|
        invariant Attached(children, input, i)
        invariant roots == RootsOf(input[..i], Ids(input))
      {
        NextRoot(input, i);
        var node := input[i];
        if node.parent.Some? && node.parent.value in children {
          AttachOne(children, input, i);
          children := children[node.parent.value := children[node.parent.value] + [node.id]];
        } else {
          AttachNone(children, input, i);
          roots := roots + [node.id];
        }
      }
      assert input[..|input|] == input;
    }
  }

  // The child lists after the second loop of buildTree has seen i accounts.
  ghost predicate Attached(children: map<nat, seq<nat>>, input: seq<Account>, i: nat)
    requires i <= |input|
  {
    && (forall id :: id in children <==> id in Ids(input))
    && (forall id :: id in children ==> children[id] == ChildrenOf(input[..i], id))
  }

  lemma {:induction false} NextChild(input: seq<Account>, i: nat, p: nat)
    requires i < |input|
    ensures ChildrenOf(input[..i + 1], p)
            == ChildrenOf(input[..i], p) + if input[i].parent == Some(p) then [input[i].id] else []
  {
    assert input[..i + 1][..i] == input[..i];
  }

  lemma {:induction false} NextRoot(input: seq<Account>, i: nat)
    requires i < |input|
    ensures RootsOf(input[..i + 1], Ids(input))
            == RootsOf(input[..i], Ids(input)) + if IsRoot(input[i], Ids(input)) then [input[i].id] else []
  {
    assert input[..i + 1][..i] == input[..i];
  }

  lemma {:induction false} AttachOne(children: map<nat, seq<nat>>, input: seq<Account>, i: nat)
    requires i < |input| && Attached(children, input, i)
    requires input[i].parent.Some? && input[i].parent.value in children
    ensures var p := input[i].parent.value;
            Attached(children[p := children[p] + [input[i].id]], input, i + 1)
  {
    forall id | id in children ensures id == input[i].parent.value || children[id] == ChildrenOf(input[..i + 1], id) {
      NextChild(input, i, id);
    }
    NextChild(input, i, input[i].parent.value);
  }

  lemma {:induction false} AttachNone(children: map<nat, seq<nat>>, input: seq<Account>, i: nat)
    requires i < |input| && Attached(children, input, i)
    requires input[i].parent.Some? ==> input[i].parent.value !in children
    ensures Attached(children, input, i + 1)
  {
    forall id | id in children ensures children[id] == ChildrenOf(input[..i + 1], id) {
      NextChild(input, i, id);
    }
  }

  // ---------------------------------------------------------------- the levels

  datatype Step = CreateStep(account: NewAccount) | DeleteStep(id: nat)

  function After(accounts: seq<Account>, step: Step): seq<Account> {
    match (match step case CreateStep(n) => Create(accounts, n) case DeleteStep(id) => SoftDelete(accounts, id))
    case Ok(next) => next
    case Err(_) => accounts
  }

  function Run(steps: seq<Step>): seq<Account> {
    if steps == [] then [] else After(Run(steps[..|steps| - 1]), steps[|steps| - 1])
  }

  // Levels run from 1 to 5, roots are on level 1, and everything else is one
  // level below the parent it was created under.
  ghost predicate WellLevelled(accounts: seq<Account>) {
    forall i :: 0 <= i < |accounts| ==>
      && accounts[i].id == i
      && 1 <= accounts[i].level <= MAX_LEVEL
      && LevelFits(accounts, i)
  }

  lemma {:induction false} RunsKeepLevels(steps: seq<Step>)
    ensures WellLevelled(Run(steps))
  {
    if steps != [] {
      RunsKeepLevels(steps[..|steps| - 1]);
      StepKeepsLevels(Run(steps[..|steps| - 1]), steps[|steps| - 1]);
    }
  }

  ghost predicate CodesUnique(accounts: seq<Account>) {
    forall i, j :: 0 <= i < j < |accounts| ==> accounts[i].code != accounts[j].code
  }

  // Over every run no two accounts, deleted or not, have the same code.
  lemma {:induction false} RunsKeepCodesUnique(steps: seq<Step>)
    ensures CodesUnique(Run(steps))
  {
    if steps != [] {
      RunsKeepCodesUnique(steps[..|steps| - 1]);
    }
  }

  // Creation succeeds exactly for a code of 1 to 5 segments that no account ever
  // had, below a live header exactly one level up, or on level 1 without one.
  lemma {:induction false} CreateSucceedsIff(accounts: seq<Account>, n: NewAccount)
    ensures Create(accounts, n).Ok?
            <==> && ValidCode(n.code) && !CodeStored(accounts, n.code)
                 && match n.parent
                    case None => |n.code| == 1
                    case Some(p) => Live(accounts, p) && accounts[p].header && |n.code| == 4 * accounts[p].level + 1
  {
    CodeLevelRange(n.code);
  }

  ghost predicate LevelFits(accounts: seq<Account>, i: nat)
    requires i < |accounts|
  {
    match accounts[i].parent
    case None => accounts[i].level == 1
    case Some(p) => p < i && accounts[i].level == accounts[p].level + 1
  }

  lemma {:induction false} StepKeepsLevels(accounts: seq<Account>, step: Step)
    requires WellLevelled(accounts)
    ensures WellLevelled(After(accounts, step))
  {
    var next := After(accounts, step);
    if step.CreateStep? {
      CodeLevelRange(step.account.code);
    }
    assert |accounts| <= |next| && forall i :: 0 <= i < |accounts| ==>
      next[i].id == accounts[i].id && next[i].level == accounts[i].level && next[i].parent == accounts[i].parent;
    forall i | 0 <= i < |next| ensures LevelFits(next, i) {
      if i < |accounts| { assert LevelFits(accounts, i); }
    }
  }

  // What the builder is given: stored accounts, each once, in any order.
  ghost predicate Selection(stored: seq<Account>, input: seq<Account>) {
    && Distinct(Ids(input))
    && forall i :: 0 <= i < |input| ==> input[i] in stored
  }

  // In a selection, an account is one level below its parent if that is present.
  ghost predicate Levelled(input: seq<Account>) {
    && Distinct(Ids(input))
    && (forall i :: 0 <= i < |input| ==> 1 <= input[i].level <= MAX_LEVEL)
    && (forall i, j :: 0 <= i < |input| && 0 <= j < |input| && input[i].parent == Some(input[j].id) ==>
          input[i].level == input[j].level + 1)
  }

  lemma {:induction false} SelectionIsLevelled(stored: seq<Account>, input: seq<Account>)
    requires WellLevelled(stored) && Selection(stored, input)
    ensures Levelled(input)
  {
    forall i, j | 0 <= i < |input| && 0 <= j < |input| && input[i].parent == Some(input[j].id)
      ensures input[i].level == input[j].level + 1
    {
      assert input[i] in stored && input[j] in stored;
      assert LevelFits(stored, input[i].id);
    }
  }

  // --------------------------------------------------------------- the forest

  // Depth-first listing of the trees under the given nodes, `depth` levels deep.
  function Preorder(input: seq<Account>, nodes: seq<nat>, depth: nat): seq<nat>
    decreases depth, |nodes|
  {
    if depth == 0 || nodes == [] then []
    else [nodes[0]] + Preorder(input, ChildrenOf(input, nodes[0]), depth - 1) + Preorder(input, nodes[1..], depth)
  }

  function Index(input: seq<Account>, id: nat): (i: nat)
    ensures i <= |input|
    ensures i < |input| <==> id in Ids(input)
    ensures i < |input| ==> input[i].id == id
  {
    if input == [] then 0 else
      var k := |input| - 1;
      assert Ids(input)[..k] == Ids(input[..k]);
      assert Ids(input) == Ids(input[..k]) + [input[k].id];
      var i := Index(input[..k], id);
      if i < k then i else if input[k].id == id then k else |input|
  }

  // The parent of a node, if it is present.
  function Up(input: seq<Account>, id: nat): Option<nat> {
    var i := Index(input, id);
    if i < |input| && input[i].parent.Some? && input[i].parent.value in Ids(input) then input[i].parent else None
  }

  function LevelOf(input: seq<Account>, id: nat): nat {
    if Index(input, id) < |input| then input[Index(input, id)].level else 0
  }

  // The k-th ancestor.
  function Ancestor(input: seq<Account>, id: nat, k: nat): Option<nat>
  {
    if k == 0 then Some(id) else
      var a := Ancestor(input, id, k - 1);
      if a.Some? then Up(input, a.value) else None
  }

  ghost predicate Under(input: seq<Account>, top: nat, id: nat) {
    exists k :: AncestorAt(input, id, k, top)
  }

  predicate AncestorAt(input: seq<Account>, id: nat, k: nat, top: nat) {
    Ancestor(input, id, k) == Some(top)
  }

  lemma {:induction false} UpIsOneLevel(input: seq<Account>, id: nat)
    requires Levelled(input) && Up(input, id).Some?
    ensures Up(input, id).value in Ids(input)
    ensures LevelOf(input, id) == LevelOf(input, Up(input, id).value) + 1
    ensures id in Ids(input)
  {
    var i := Index(input, id);
    var j := Index(input, input[i].parent.value);
    assert input[i].parent == Some(input[j].id);
  }

  ghost predicate NamesParent(accounts: seq<Account>, p: nat, x: nat) {
    exists i :: 0 <= i < |accounts| && accounts[i].id == x && accounts[i].parent == Some(p)
  }

  lemma {:induction false} ChildrenMembers(accounts: seq<Account>, p: nat, x: nat)
    ensures x in ChildrenOf(accounts, p) <==> NamesParent(accounts, p, x)
  {
    if accounts != [] {
      var k := |accounts| - 1;
      ChildrenMembers(accounts[..k], p, x);
      NamesParentGrows(accounts, p, x);
    }
  }

  lemma {:induction false} NamesParentGrows(accounts: seq<Account>, p: nat, x: nat)
    requires accounts != []
    ensures var k := |accounts| - 1;
            NamesParent(accounts, p, x)
            <==> NamesParent(accounts[..k], p, x) || (accounts[k].id == x && accounts[k].parent == Some(p))
  {
    var before := accounts[..|accounts| - 1];
    if NamesParent(before, p, x) {
      var i :| 0 <= i < |before| && before[i].id == x && before[i].parent == Some(p);
      assert accounts[i] == before[i];
    } else if NamesParent(accounts, p, x) {
      var i :| 0 <= i < |accounts| && accounts[i].id == x && accounts[i].parent == Some(p);
    }
  }

  ghost predicate RootAmong(accounts: seq<Account>, ids: seq<nat>, x: nat) {
    exists i :: 0 <= i < |accounts| && accounts[i].id == x && IsRoot(accounts[i], ids)
  }

  lemma {:induction false} RootsMembers(accounts: seq<Account>, ids: seq<nat>, x: nat)
    ensures x in RootsOf(accounts, ids) <==> RootAmong(accounts, ids, x)
  {
    if accounts != [] {
      var k := |accounts| - 1;
      RootsMembers(accounts[..k], ids, x);
      RootAmongGrows(accounts, ids, x);
    }
  }

  lemma {:induction false} RootAmongGrows(accounts: seq<Account>, ids: seq<nat>, x: nat)
    requires accounts != []
    ensures var k := |accounts| - 1;
            RootAmong(accounts, ids, x)
            <==> RootAmong(accounts[..k], ids, x) || (accounts[k].id == x && IsRoot(accounts[k], ids))
  {
    var before := accounts[..|accounts| - 1];
    if RootAmong(before, ids, x) {
      var i :| 0 <= i < |before| && before[i].id == x && IsRoot(before[i], ids);
      assert accounts[i] == before[i];
    } else if RootAmong(accounts, ids, x) {
      var i :| 0 <= i < |accounts| && accounts[i].id == x && IsRoot(accounts[i], ids);
    }
  }

  lemma {:induction false} ChildIsBelow(input: seq<Account>, p: nat, c: nat)
    requires Levelled(input) && p in Ids(input)
    ensures c in ChildrenOf(input, p) <==> c in Ids(input) && Up(input, c) == Some(p)
  {
    ChildrenMembers(input, p, c);
    if c in ChildrenOf(input, p) {
      var i :| 0 <= i < |input| && input[i].id == c && input[i].parent == Some(p);
      assert Ids(input)[i] == c;
      SameIndex(input, i, c);
    }
    if c in Ids(input) && Up(input, c) == Some(p) {
      assert input[Index(input, c)].parent == Some(p);
    }
  }

  lemma {:induction false} SameIndex(input: seq<Account>, i: nat, id: nat)
    requires Distinct(Ids(input)) && i < |input| && input[i].id == id
    ensures Index(input, id) == i
  {
    assert Ids(input)[i] == id;
    assert Ids(input)[Index(input, id)] == id;
  }

  lemma {:induction false} AncestorLevel(input: seq<Account>, id: nat, k: nat)
    requires Levelled(input) && id in Ids(input) && Ancestor(input, id, k).Some?
    ensures Ancestor(input, id, k).value in Ids(input)
    ensures LevelOf(input, id) == LevelOf(input, Ancestor(input, id, k).value) + k
  {
    if k > 0 {
      AncestorLevel(input, id, k - 1);
      UpIsOneLevel(input, Ancestor(input, id, k - 1).value);
    }
  }

  // Two ancestors of one node lie on one line.
  lemma {:induction false} OneLine(input: seq<Account>, id: nat, j: nat, k: nat)
    requires j <= k && Ancestor(input, id, k).Some?
    ensures Ancestor(input, id, j).Some?
    ensures Ancestor(input, Ancestor(input, id, j).value, k - j) == Ancestor(input, id, k)
  {
    if k > j {
      OneLine(input, id, j, k - 1);
    }
  }

  ghost predicate UnderAny(input: seq<Account>, tops: seq<nat>, id: nat) {
    exists n :: n in tops && Under(input, n, id)
  }

  lemma {:induction false} UnderFirstOrRest(input: seq<Account>, tops: seq<nat>, id: nat)
    requires tops != []
    ensures UnderAny(input, tops, id) <==> Under(input, tops[0], id) || UnderAny(input, tops[1..], id)
  {
    assert tops[0] in tops;
    assert forall n :: n in tops <==> n == tops[0] || n in tops[1..];
  }

  // Below p means: p itself, or below a child of p.
  lemma {:induction false} UnderByChild(input: seq<Account>, p: nat, id: nat)
    requires Levelled(input) && p in Ids(input) && id in Ids(input)
    ensures Under(input, p, id) <==> id == p || UnderAny(input, ChildrenOf(input, p), id)
  {
    if id == p {
      assert AncestorAt(input, id, 0, p);
    } else if Under(input, p, id) {
      var k: nat :| AncestorAt(input, id, k, p);
      ThroughChild(input, p, id, k);
    } else if UnderAny(input, ChildrenOf(input, p), id) {
      var c :| c in ChildrenOf(input, p) && Under(input, c, id);
      var k: nat :| AncestorAt(input, id, k, c);
      ChildIsBelow(input, p, c);
      assert AncestorAt(input, id, k + 1, p);
    }
  }

  lemma {:induction false} ThroughChild(input: seq<Account>, p: nat, id: nat, k: nat)
    requires Levelled(input) && p in Ids(input) && id in Ids(input) && id != p && AncestorAt(input, id, k, p)
    ensures UnderAny(input, ChildrenOf(input, p), id)
  {
    assert k > 0;
    AncestorLevel(input, id, k - 1);
    var c := Ancestor(input, id, k - 1).value;
    ChildIsBelow(input, p, c);
    assert AncestorAt(input, id, k - 1, c);
    assert Under(input, c, id);
  }

  ghost predicate DeepEnough(input: seq<Account>, nodes: seq<nat>, depth: nat) {
    forall n :: n in nodes ==> n in Ids(input) && LevelOf(input, n) + depth > MAX_LEVEL
  }

  lemma {:induction false} ChildrenDeepEnough(input: seq<Account>, nodes: seq<nat>, depth: nat)
    requires Levelled(input) && DeepEnough(input, nodes, depth) && nodes != []
    ensures depth > 0 && DeepEnough(input, ChildrenOf(input, nodes[0]), depth - 1)
  {
    assert nodes[0] in nodes;
    forall c | c in ChildrenOf(input, nodes[0])
      ensures c in Ids(input) && LevelOf(input, c) + (depth - 1) > MAX_LEVEL
    {
      ChildIsBelow(input, nodes[0], c);
      UpIsOneLevel(input, c);
    }
  }

  // The listing holds exactly what lies under its nodes.
  lemma {:induction false} ListedIffUnder(input: seq<Account>, nodes: seq<nat>, depth: nat, id: nat)
    requires Levelled(input) && DeepEnough(input, nodes, depth) && id in Ids(input)
    ensures id in Preorder(input, nodes, depth) <==> UnderAny(input, nodes, id)
    decreases depth, |nodes|
  {
    if nodes != [] {
      ChildrenDeepEnough(input, nodes, depth);
      ListedIffUnder(input, ChildrenOf(input, nodes[0]), depth - 1, id);
      ListedIffUnder(input, nodes[1..], depth, id);
      UnderByChild(input, nodes[0], id);
      UnderFirstOrRest(input, nodes, id);
    }
  }

  lemma {:induction false} ListsAccounts(input: seq<Account>, nodes: seq<nat>, depth: nat)
    requires Levelled(input) && DeepEnough(input, nodes, depth)
    ensures forall x :: x in Preorder(input, nodes, depth) ==> x in Ids(input)
    decreases depth, |nodes|
  {
    if nodes != [] {
      ChildrenDeepEnough(input, nodes, depth);
      ListsAccounts(input, ChildrenOf(input, nodes[0]), depth - 1);
      ListsAccounts(input, nodes[1..], depth);
    }
  }

  // No node is below another one of the list.
  ghost predicate Antichain(input: seq<Account>, nodes: seq<nat>) {
    Distinct(nodes) && forall m, n :: m in nodes && n in nodes && m != n ==> !Under(input, m, n)
  }

  lemma {:induction false} Comparable(input: seq<Account>, m: nat, n: nat, id: nat)
    requires Under(input, m, id) && Under(input, n, id)
    ensures Under(input, m, n) || Under(input, n, m)
  {
    var j: nat :| AncestorAt(input, id, j, m);
    var k: nat :| AncestorAt(input, id, k, n);
    if j <= k {
      OneLine(input, id, j, k);
      assert AncestorAt(input, m, k - j, n);
    } else {
      OneLine(input, id, k, j);
      assert AncestorAt(input, n, j - k, m);
    }
  }

  lemma {:induction false} SiblingsAreAntichain(input: seq<Account>, p: nat)
    requires Levelled(input) && p in Ids(input)
    ensures Antichain(input, ChildrenOf(input, p))
    ensures !UnderAny(input, ChildrenOf(input, p), p)
  {
    var children := ChildrenOf(input, p);
    ChildrenDistinct(input, p);
    forall c | c in children ensures c in Ids(input) && LevelOf(input, c) == LevelOf(input, p) + 1 {
      ChildIsBelow(input, p, c);
      UpIsOneLevel(input, c);
    }
    forall m, n | m in children && (n == p || n in children) && m != n ensures !Under(input, m, n) {
      if Under(input, m, n) {
        var k: nat :| AncestorAt(input, n, k, m);
        AncestorLevel(input, n, k);
      }
    }
  }

  lemma {:induction false} ChildrenDistinct(input: seq<Account>, p: nat)
    requires Distinct(Ids(input))
    ensures Distinct(ChildrenOf(input, p))
  {
    if input != [] {
      var k := |input| - 1;
      assert Ids(input)[..k] == Ids(input[..k]);
      assert forall i :: 0 <= i < k ==> Ids(input)[i] == input[i].id;
      ChildrenDistinct(input[..k], p);
      forall i | 0 <= i < k ensures input[..k][i].id != input[k].id { assert Ids(input)[i] != Ids(input)[k]; }
      ChildrenMembers(input[..k], p, input[k].id);
    }
  }

  lemma {:induction false} RootsDistinct(input: seq<Account>, ids: seq<nat>)
    requires Distinct(Ids(input))
    ensures Distinct(RootsOf(input, ids))
  {
    if input != [] {
      var k := |input| - 1;
      assert Ids(input)[..k] == Ids(input[..k]);
      RootsDistinct(input[..k], ids);
      forall i | 0 <= i < k ensures input[..k][i].id != input[k].id { assert Ids(input)[i] != Ids(input)[k]; }
      RootsMembers(input[..k], ids, input[k].id);
    }
  }

  lemma {:induction false} RootIff(input: seq<Account>, r: nat)
    requires Levelled(input)
    ensures r in RootsOf(input, Ids(input)) <==> r in Ids(input) && Up(input, r).None?
  {
    RootsMembers(input, Ids(input), r);
    if r in RootsOf(input, Ids(input)) {
      var i :| 0 <= i < |input| && input[i].id == r && IsRoot(input[i], Ids(input));
      assert Ids(input)[i] == r;
      SameIndex(input, i, r);
    }
    if r in Ids(input) && Up(input, r).None? {
      assert IsRoot(input[Index(input, r)], Ids(input));
    }
  }

  lemma {:induction false} NothingAboveRoot(input: seq<Account>, r: nat, k: nat)
    requires Up(input, r).None? && k > 0
    ensures Ancestor(input, r, k).None?
  {
    if k > 1 {
      NothingAboveRoot(input, r, k - 1);
    } else {
      assert Ancestor(input, r, 0) == Some(r);
    }
  }

  lemma {:induction false} RootsAreAntichain(input: seq<Account>)
    requires Levelled(input)
    ensures Antichain(input, RootsOf(input, Ids(input)))
  {
    var roots := RootsOf(input, Ids(input));
    RootsDistinct(input, Ids(input));
    forall m, n | m in roots && n in roots && m != n ensures !Under(input, m, n) {
      RootIff(input, n);
      if Under(input, m, n) {
        var k: nat :| AncestorAt(input, n, k, m);
        NothingAboveRoot(input, n, k);
      }
    }
  }

  lemma {:induction false} DistinctJoin(s: seq<nat>, t: seq<nat>)
    requires Distinct(s) && Distinct(t) && forall x :: x in s ==> x !in t
    ensures Distinct(s + t)
  {
    forall i, j | 0 <= i < j < |s + t| ensures (s + t)[i] != (s + t)[j] {
      if i < |s| <= j {
        assert s[i] in s && t[j - |s|] in t;
      }
    }
  }

  // The listing repeats nothing.
  lemma {:induction false} ListedOnce(input: seq<Account>, nodes: seq<nat>, depth: nat)
    requires Levelled(input) && DeepEnough(input, nodes, depth) && Antichain(input, nodes)
    ensures Distinct(Preorder(input, nodes, depth))
    decreases depth, |nodes|
  {
    if nodes != [] {
      var n, rest := nodes[0], nodes[1..];
      ChildrenDeepEnough(input, nodes, depth);
      SiblingsAreAntichain(input, n);
      var below, others := Preorder(input, ChildrenOf(input, n), depth - 1), Preorder(input, rest, depth);
      ListedOnce(input, ChildrenOf(input, n), depth - 1);
      ListedOnce(input, rest, depth);
      ListsAccounts(input, ChildrenOf(input, n), depth - 1);
      ListedIffUnder(input, ChildrenOf(input, n), depth - 1, n);
      ListedIffUnder(input, rest, depth, n);
      forall x | x in [n] + below ensures x !in others {
        NotListedTwice(input, nodes, depth, x);
      }
      DistinctJoin([n], below);
      DistinctJoin([n] + below, others);
    }
  }

  lemma {:induction false} NotListedTwice(input: seq<Account>, nodes: seq<nat>, depth: nat, x: nat)
    requires Levelled(input) && DeepEnough(input, nodes, depth) && Antichain(input, nodes) && nodes != [] && depth > 0
    requires x == nodes[0] || x in Preorder(input, ChildrenOf(input, nodes[0]), depth - 1)
    ensures x !in Preorder(input, nodes[1..], depth)
  {
    var n := nodes[0];
    assert x in Ids(input) && Under(input, n, x) by { FirstTreeIsUnder(input, nodes, depth, x); }
    assert !UnderAny(input, nodes[1..], x) by { UnderFirstOnly(input, nodes, x); }
    ListedIffUnder(input, nodes[1..], depth, x);
  }

  lemma {:induction false} FirstTreeIsUnder(input: seq<Account>, nodes: seq<nat>, depth: nat, x: nat)
    requires Levelled(input) && DeepEnough(input, nodes, depth) && nodes != [] && depth > 0
    requires x == nodes[0] || x in Preorder(input, ChildrenOf(input, nodes[0]), depth - 1)
    ensures x in Ids(input) && Under(input, nodes[0], x)
  {
    var n := nodes[0];
    assert n in Ids(input);
    if x == n {
      assert AncestorAt(input, x, 0, n);
    } else {
      ChildrenDeepEnough(input, nodes, depth);
      ListsAccounts(input, ChildrenOf(input, n), depth - 1);
      ListedIffUnder(input, ChildrenOf(input, n), depth - 1, x);
      UnderByChild(input, n, x);
    }
  }

  lemma {:induction false} UnderFirstOnly(input: seq<Account>, nodes: seq<nat>, x: nat)
    requires Antichain(input, nodes) && nodes != [] && Under(input, nodes[0], x)
    ensures !UnderAny(input, nodes[1..], x)
  {
    var n := nodes[0];
    forall m | m in nodes[1..] ensures !Under(input, m, x) {
      var k :| 1 <= k < |nodes| && nodes[k] == m;
      if Under(input, m, x) {
        Comparable(input, m, n, x);
      }
    }
  }

  lemma {:induction false} EveryoneHasRoot(input: seq<Account>, id: nat)
    requires Levelled(input) && id in Ids(input)
    ensures UnderAny(input, RootsOf(input, Ids(input)), id)
    decreases LevelOf(input, id)
  {
    if Up(input, id).None? {
      RootIff(input, id);
      assert AncestorAt(input, id, 0, id);
    } else {
      var p := Up(input, id).value;
      UpIsOneLevel(input, id);
      EveryoneHasRoot(input, p);
      var r :| r in RootsOf(input, Ids(input)) && Under(input, r, p);
      var k: nat :| AncestorAt(input, p, k, r);
      AncestorOfParent(input, id, k);
      assert AncestorAt(input, id, k + 1, r);
    }
  }

  lemma {:induction false} AncestorOfParent(input: seq<Account>, id: nat, k: nat)
    requires Up(input, id).Some?
    ensures Ancestor(input, id, k + 1) == Ancestor(input, Up(input, id).value, k)
  {
    if k > 0 {
      AncestorOfParent(input, id, k - 1);
    } else {
      assert Ancestor(input, id, 0) == Some(id);
    }
  }

  lemma {:induction false} CountInDistinct(s: seq<nat>, x: nat)
    requires Distinct(s)
    ensures multiset(s)[x] == if x in s then 1 else 0
  {
    if s != [] {
      var k := |s| - 1;
      assert s == s[..k] + [s[k]];
      CountInDistinct(s[..k], x);
    }
  }

  // Main theorem: for the accounts left by any run of creations and deletions,
  // whatever selection of them is given in whatever order, walking the built
  // trees from the roots lists every given account exactly once.
  lemma {:induction false} TreeIsComplete(steps: seq<Step>, input: seq<Account>)
    requires Selection(Run(steps), input)
    ensures multiset(Preorder(input, RootsOf(input, Ids(input)), MAX_LEVEL)) == multiset(Ids(input))
  {
    RunsKeepLevels(steps);
    SelectionIsLevelled(Run(steps), input);
    var roots := RootsOf(input, Ids(input));
    var listed := Preorder(input, roots, MAX_LEVEL);
    forall r | r in roots ensures r in Ids(input) && LevelOf(input, r) + MAX_LEVEL > MAX_LEVEL {
      RootIff(input, r);
    }
    RootsAreAntichain(input);
    ListedOnce(input, roots, MAX_LEVEL);
    ListsAccounts(input, roots, MAX_LEVEL);
    var found: multiset<nat>, given: multiset<nat> := multiset(listed), multiset(Ids(input));
    forall x: nat ensures found[x] == given[x] {
      CountInDistinct(listed, x);
      CountInDistinct(Ids(input), x);
      if x in Ids(input) {
        EveryoneHasRoot(input, x);
        ListedIffUnder(input, roots, MAX_LEVEL, x);
      }
    }
  }
}
