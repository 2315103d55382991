// The committed ledger of concurrent sessions is that of a serial run, and
// everything proved of serial runs holds of it.

module InventorySerializability {
  import opened Common
  import opened InventoryLedger
  import opened InventoryInvariants
  import opened InventorySessions

  // Main theorem: in every interleaving the committed ledger is the one that
  // running the committed operations alone, in commit order, produces; each of
  // them succeeds there, commits once, and nothing else left a row.
  lemma {:induction false} CommittedLedgerIsSerial(ops: seq<Op>, events: seq<Event>)
    ensures Inv(Run(ops, events))
    ensures Serial(Run(ops, events))
  {
    if events == [] {
      assert CommittedOps(Init(ops)) == [];
    } else {
      CommittedLedgerIsSerial(ops, events[..|events| - 1]);
      StepKeepsInv(Run(ops, events[..|events| - 1]), events[|events| - 1]);
    }
  }

  // ------------------------------------------------- soundness of what is stored

  lemma {:induction false} SessionsKeepOps(ops: seq<Op>, events: seq<Event>)
    ensures var sessions := Run(ops, events).sessions;
            |sessions| == |ops| && forall i :: 0 <= i < |ops| ==> sessions[i].op == ops[i]
  {
    if events != [] {
      SessionsKeepOps(ops, events[..|events| - 1]);
    }
  }

  lemma {:induction false} LoggedOps(ops: seq<Op>, sessions: seq<Session>, log: seq<nat>)
    requires |sessions| == |ops| && forall i :: 0 <= i < |ops| ==> sessions[i].op == ops[i]
    ensures forall k :: 0 <= k < |OpsOf(sessions, log)| ==> OpsOf(sessions, log)[k] in ops
  {
    if log != [] {
      LoggedOps(ops, sessions, log[..|log| - 1]);
    }
  }

  // Whatever the interleaving, a committed ledger in date order carries sound
  // running columns: everything proved of serial runs holds of it.
  lemma {:induction false} ConcurrentLedgerIsConsistent(ops: seq<Op>, events: seq<Event>)
    requires forall i :: 0 <= i < |ops| ==> WithinDto(ops[i])
    requires Chronological(Run(ops, events).ledger)
    ensures LegalRows([], Run(ops, events).ledger) && Consistent(Run(ops, events).ledger)
  {
    var sys := Run(ops, events);
    CommittedLedgerIsSerial(ops, events);
    SessionsKeepOps(ops, events);
    LoggedOps(ops, sys.sessions, sys.log);
    RunsAreConsistent(CommittedOps(sys));
  }
}
