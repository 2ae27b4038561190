/** The per-bot movement lock: a hold belongs to the token minted for it, and only
    that token gives it back. */
module MovementControl {
  import opened Options

  type Bot = nat
  type Token = nat

  /** minted counts the tokens handed out so far; no token is minted twice. */
  datatype Locks = Locks(owners: map<Bot, Token>, minted: nat) {
    ghost predicate Valid() {
      forall b | b in owners :: owners[b] < minted
    }

    predicate Holds(bot: Bot, token: Token) {
      bot in owners && owners[bot] == token
    }
  }

  datatype LockOp = Acquire(bot: Bot) | Release(bot: Bot, token: Token)

  function Step(l: Locks, op: LockOp): Locks {
    match op
    case Acquire(bot) => if bot in l.owners then l else Locks(l.owners[bot := l.minted], l.minted + 1)
    case Release(bot, token) => if l.Holds(bot, token) then Locks(l.owners - {bot}, l.minted) else l
  }

  function Run(l: Locks, ops: seq<LockOp>): Locks
    decreases |ops|
  {
    if ops == [] then l else Run(Step(l, ops[0]), ops[1..])
  }

  /** A hold lasts until its own token is given back, whatever anyone else does. */
  lemma {:induction false} HoldLasts(l: Locks, ops: seq<LockOp>, bot: Bot, token: Token)
    requires l.Valid() && l.Holds(bot, token) && Release(bot, token) !in ops
    ensures Run(l, ops).Valid() && Run(l, ops).Holds(bot, token) && Run(l, ops).minted >= l.minted
    decreases |ops|
  {
    if ops != [] {
      assert Step(l, ops[0]).Holds(bot, token) by {
        assert ops[0] in ops;
      }
      HoldLasts(Step(l, ops[0]), ops[1..], bot, token);
    }
  }

  /** A token that was given back never holds the bot again, so releasing it once more,
      at any later time, changes nothing. */
  lemma {:induction false} ReleasedForGood(l: Locks, ops: seq<LockOp>, bot: Bot, token: Token)
    requires l.Valid() && token < l.minted && !l.Holds(bot, token)
    ensures Run(l, ops).Valid() && !Run(l, ops).Holds(bot, token)
    ensures Step(Run(l, ops), Release(bot, token)) == Run(l, ops)
    decreases |ops|
  {
    if ops != [] {
      ReleasedForGood(Step(l, ops[0]), ops[1..], bot, token);
    }
  }

  class MovementLock {
    var owners: map<Bot, Token>
    var minted: nat

    function State(): (l: Locks)
      reads this
    {
      Locks(owners, minted)
    }

    constructor ()
      ensures State().Valid() && owners == map[]
    {
      owners, minted := map[], 0;
    }

    method Acquire(bot: Bot) returns (token: Option<Token>)
      requires State().Valid()
      modifies this
      ensures State().Valid() && State() == Step(old(State()), LockOp.Acquire(bot))
      ensures token.Some? <==> bot !in old(owners)
      ensures token.Some? ==> token.value == old(minted) && State().Holds(bot, token.value)
    {
      if bot in owners {
        return None;
      }
      var owner := minted;
      minted := minted + 1;
      owners := owners[bot := owner];
      token := Some(owner);
    }

    method Release(bot: Bot, token: Token)
      requires State().Valid()
      modifies this
      ensures State().Valid() && State() == Step(old(State()), LockOp.Release(bot, token))
    {
      if bot in owners && owners[bot] == token {
        owners := owners - {bot};
      }
    }

    /** What others do to the lock while its holder waits. */
    method Apply(ops: seq<LockOp>)
      requires State().Valid()
      modifies this
      ensures State().Valid() && State() == Run(old(State()), ops)
    {
      for i := 0 to |ops|
        invariant State().Valid() && Run(State(), ops[i..]) == Run(old(State()), ops)
      {
        match ops[i] {
          case Acquire(bot) => var _ := Acquire(bot);
          case Release(bot, token) => Release(bot, token);
        }
      }
    }
  }
}
