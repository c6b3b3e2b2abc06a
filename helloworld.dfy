/**
 The HelloWorld contract of the enclave runtime: a store that keeps, for each
 account, the last string ("whisper") that account set. Commands come from
 ledger transactions and write the caller's own entry; queries read it back,
 and only the caller that owns an entry may read it.
 */
module HelloWorldContract {
  import opened Wrappers

  /** The caller identity (`chain::AccountId`, wrapped as `AccountIdWrapper`):
      an opaque byte string compared by equality. */
  type AccountId = seq<bv8>

  /** Reference to the ledger transaction a command came from. The contract
      receives it and never looks at it. */
  datatype TxRef = TxRef(position: nat)

  /** Outcome of a command. `Ok` is the only status this contract produces;
      `Failed` stands for the runtime's other statuses. */
  datatype TransactionStatus = Ok | Failed

  /** Commands accepted from the blockchain. */
  datatype Command = SetWhisper(whisper: string)

  /** Errors a query can report. */
  datatype Error = NotAuthorized | SomeOtherError

  /** Query requests. */
  datatype Request = GetWhisper

  /** Query responses. */
  datatype Response = GetWhisper(whisper: string) | Error(error: Error)

  /** The contract state: the whisper of every account that has set one. */
  type Whispers = map<AccountId, string>

  /** The state after `origin` issues `cmd`: the entry of `origin` holds the new
      whisper, whether or not it had one, and no other entry changes. */
  function Apply(w: Whispers, origin: AccountId, cmd: Command): (w': Whispers)
    ensures w'.Keys == w.Keys + {origin}
    ensures w'[origin] == cmd.whisper
    ensures forall b :: b in w && b != origin ==> w'[b] == w[b]
  {
    match cmd
    case SetWhisper(whisper) => w[origin := whisper]
  }

  /** The response to `req` by the caller `origin` (absent for an anonymous
      query) in state `w`: the caller's own whisper when the caller is known
      and has one, `NotAuthorized` otherwise. No query yields `SomeOtherError`. */
  function Query(w: Whispers, origin: Option<AccountId>, req: Request): (r: Response)
    ensures r.GetWhisper? <==> origin.Some? && origin.value in w
    ensures r.GetWhisper? ==> r.whisper == w[origin.value]
    ensures r.Error? ==> r.error == NotAuthorized
  {
    match req
    case GetWhisper =>
      match origin
      case Some(account) =>
        if account in w then Response.GetWhisper(w[account]) else Error(NotAuthorized)
      case None => Error(NotAuthorized)
  }

  /** The contract object; its one field is updated in place by commands. */
  class HelloWorld {
    var whisper: Whispers

    /** A new contract: nobody has a whisper yet. */
    constructor ()
      ensures whisper == map[]
    {
      whisper := map[];
    }

    /** Applies a command from a transaction. The write always succeeds and
        overwrites (or creates) the entry of the transaction's origin. */
    method HandleCommand(origin: AccountId, txref: TxRef, cmd: Command) returns (status: TransactionStatus)
      modifies this
      ensures status == TransactionStatus.Ok
      ensures whisper == Apply(old(whisper), origin, cmd)
    {
      match cmd {
        case SetWhisper(w) =>
          var currentUser := origin;
          whisper := whisper[currentUser := w];
          status := TransactionStatus.Ok;
      }
    }

    /** Answers a query. The inner computation either produces a response or
        fails with an error, and a failure is wrapped as `Response.Error`.
        The method has no `modifies` clause, so it cannot change the state. */
    method HandleQuery(origin: Option<AccountId>, req: Request) returns (resp: Response)
      ensures resp == Query(whisper, origin, req)
    {
      var inner: Result<Response, Error> := Err(NotAuthorized);
      match req {
        case GetWhisper =>
          if origin.Some? {
            var currentUser := origin.value;
            if currentUser in whisper {
              inner := Result.Ok(Response.GetWhisper(whisper[currentUser]));
            }
          }
      }
      match inner {
        case Err(error) => resp := Error(error);
        case Ok(r) => resp := r;
      }
    }
  }

  /** On a new contract every query is refused. */
  lemma FreshContractRefusesQueries(origin: Option<AccountId>, req: Request)
    ensures Query(map[], origin, req) == Error(NotAuthorized)
  {
  }

  /** A query without an origin is refused, whatever the state. */
  lemma AnonymousQueryRefused(w: Whispers, req: Request)
    ensures Query(w, None, req) == Error(NotAuthorized)
  {
  }

  /** Reading right after writing returns what was written. */
  lemma ReadAfterWrite(w: Whispers, a: AccountId, v: string)
    ensures Query(Apply(w, a, SetWhisper(v)), Some(a), Request.GetWhisper) == Response.GetWhisper(v)
  {
  }

  /** A second write by the same account replaces the first. */
  lemma LastWriteWins(w: Whispers, a: AccountId, c1: Command, c2: Command)
    ensures Apply(Apply(w, a, c1), a, c2) == Apply(w, a, c2)
  {
  }

  /** A write by `a` leaves the entry of every other account `b` as it was,
      present or absent, and so leaves every query by `b` unchanged. */
  lemma WriteIsolation(w: Whispers, a: AccountId, b: AccountId, cmd: Command, req: Request)
    requires a != b
    ensures b in Apply(w, a, cmd) <==> b in w
    ensures b in w ==> Apply(w, a, cmd)[b] == w[b]
    ensures Query(Apply(w, a, cmd), Some(b), req) == Query(w, Some(b), req)
  {
  }

  /** The example session: account `a` sets "hi"; `a` reads it back, while
      another account and an anonymous caller are refused. */
  method Session(a: AccountId, b: AccountId) returns (status: TransactionStatus, mine: Response, theirs: Response, anonymous: Response)
    requires a != b
    ensures status == TransactionStatus.Ok
    ensures mine == Response.GetWhisper("hi")
    ensures theirs == Error(NotAuthorized)
    ensures anonymous == Error(NotAuthorized)
  {
    var contract := new HelloWorld();
    status := contract.HandleCommand(a, TxRef(0), SetWhisper("hi"));
    mine := contract.HandleQuery(Some(a), Request.GetWhisper);
    theirs := contract.HandleQuery(Some(b), Request.GetWhisper);
    anonymous := contract.HandleQuery(None, Request.GetWhisper);
  }
}
