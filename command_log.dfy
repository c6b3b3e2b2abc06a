/**
 The contract state as a function of the ledger: commands are applied in
 ledger order, one `Apply` per transaction, so the state after a log of
 transactions is determined by that log alone. The lemmas say what a query
 returns after any log and that an account's readable entry depends only on
 that account's own transactions.
 */
module CommandLog {
  import opened Wrappers
  import opened HelloWorldContract

  /** One ledger transaction addressed to the contract. */
  datatype Transaction = Transaction(origin: AccountId, txref: TxRef, cmd: Command)

  /** The state reached from `w` by applying `log` in order. */
  function Replay(w: Whispers, log: seq<Transaction>): (w': Whispers)
    decreases |log|
  {
    if log == [] then w
    else Replay(Apply(w, log[0].origin, log[0].cmd), log[1..])
  }

  /** The whisper of the last transaction in `log` issued by `a`, if any. */
  function LastWhisper(log: seq<Transaction>, a: AccountId): (r: Option<string>)
    decreases |log|
  {
    if log == [] then None
    else if log[|log| - 1].origin == a then Some(log[|log| - 1].cmd.whisper)
    else LastWhisper(log[..|log| - 1], a)
  }

  /** The transactions of `log` issued by `a`, in ledger order. */
  function IssuedBy(log: seq<Transaction>, a: AccountId): (r: seq<Transaction>)
    ensures forall t :: t in r <==> t in log && t.origin == a
    decreases |log|
  {
    if log == [] then []
    else if log[|log| - 1].origin == a then IssuedBy(log[..|log| - 1], a) + [log[|log| - 1]]
    else IssuedBy(log[..|log| - 1], a)
  }

  /** Replaying two logs one after the other is replaying their concatenation. */
  lemma {:induction false} ReplayAppend(w: Whispers, first: seq<Transaction>, second: seq<Transaction>)
    ensures Replay(w, first + second) == Replay(Replay(w, first), second)
    decreases |first|
  {
    if first == [] {
      assert first + second == second;
    } else {
      assert (first + second)[0] == first[0];
      assert (first + second)[1..] == first[1..] + second;
      ReplayAppend(Apply(w, first[0].origin, first[0].cmd), first[1..], second);
    }
  }

  /** After a log, the entry of `a` is the whisper of `a`'s last transaction
      in it; when `a` issued none, the entry is as it was before the log. */
  lemma {:induction false} ReplayEntry(w: Whispers, log: seq<Transaction>, a: AccountId)
    ensures LastWhisper(log, a).Some? ==> a in Replay(w, log) && Replay(w, log)[a] == LastWhisper(log, a).value
    ensures LastWhisper(log, a).None? ==> (a in Replay(w, log) <==> a in w)
    ensures LastWhisper(log, a).None? && a in w ==> Replay(w, log)[a] == w[a]
    decreases |log|
  {
    if log != [] {
      var n := |log| - 1;
      var prefix := log[..n];
      assert log == prefix + [log[n]];
      ReplayAppend(w, prefix, [log[n]]);
      assert Replay(w, log) == Apply(Replay(w, prefix), log[n].origin, log[n].cmd);
      ReplayEntry(w, prefix, a);
    }
  }

  /** What a query by `a` returns after the log is replayed on a new contract:
      the whisper of `a`'s last transaction, or `NotAuthorized` if `a` never
      issued one. */
  lemma QueryAfterLog(log: seq<Transaction>, a: AccountId)
    ensures Query(Replay(map[], log), Some(a), Request.GetWhisper) ==
      match LastWhisper(log, a)
      case Some(v) => Response.GetWhisper(v)
      case None => Error(NotAuthorized)
  {
    ReplayEntry(map[], log, a);
  }

  /** The last transaction of `a` in a log is its last transaction among those
      it issued. */
  lemma {:induction false} LastWhisperIssuedBy(log: seq<Transaction>, a: AccountId)
    ensures LastWhisper(IssuedBy(log, a), a) == LastWhisper(log, a)
    decreases |log|
  {
    if log != [] {
      var n := |log| - 1;
      var rest := IssuedBy(log[..n], a);
      LastWhisperIssuedBy(log[..n], a);
      if log[n].origin == a {
        assert (rest + [log[n]])[..|rest|] == rest;
      }
    }
  }

  /** Isolation across a whole log: what `a` reads after the log is what it
      would read had only `a`'s own transactions been on the ledger. */
  lemma OthersDoNotAffect(log: seq<Transaction>, a: AccountId)
    ensures Query(Replay(map[], log), Some(a), Request.GetWhisper) ==
            Query(Replay(map[], IssuedBy(log, a)), Some(a), Request.GetWhisper)
  {
    QueryAfterLog(log, a);
    QueryAfterLog(IssuedBy(log, a), a);
    LastWhisperIssuedBy(log, a);
  }
}
