/** The log of everything wood collection starts, and what every such log must respect. */
module WoodLog {
  import opened Cargo
  import opened Geometry
  import opened Options

  type Site = Point

  /** Net amounts taken up and amounts put into the chest, kind by kind. */
  datatype Books = Books(gained: Kind -> int, banked: Kind -> int) {
    function Net(k: Kind): int {
      gained(k) - banked(k)
    }
  }

  /** Started's limit is how many logs may be harvested; a return harvests none. Answered is the guard's
      answer to a question without a grant. PassedOver is a log not asked about, with the time, the slots
      in use and the places of the trail it was passed over with. Dug and Settled tell the baseline of
      their trip, and Deposited that of its kind. */
  datatype Act =
    | Started(limit: nat)
    | Ended
    | Restarted
    | StopAccepted
    | Interrupted
    | Opened
    | Answered(site: Site, allowed: bool, logs: seq<Site>)
    | PassedOver(site: Site, late: bool, slots: nat, places: nat)
    | Granted(site: Site)
    | Dug(site: Site, floor: map<Kind, nat>)
    | HeadedHome
    | Deposited(count: nat, held: nat, least: nat)
    | Settled(baseline: map<Kind, nat>, left: map<Kind, nat>, since: Books, now: Books, calm: bool)
    | Forgotten

  type Log = seq<Act>

  /** Acts that change the world. */
  predicate Acts(a: Act) {
    a.Opened? || a.Dug? || a.Deposited?
  }

  ghost function Before(l: Log): Log
    requires l != []
  {
    l[..|l| - 1]
  }

  ghost function Last(l: Log): Act
    requires l != []
  {
    l[|l| - 1]
  }

  /** A stop or an interruption came in since the last start. */
  ghost predicate Halted(l: Log)
    decreases |l|
  {
    l != [] && !Last(l).Started? && (Last(l).StopAccepted? || Last(l).Interrupted? || Halted(Before(l)))
  }

  ghost predicate Running(l: Log)
    decreases |l|
  {
    l != [] && !Last(l).Ended? && !Last(l).Restarted? && (Last(l).Started? || Running(Before(l)))
  }

  /** Logs dug since the last start. */
  ghost function Digs(l: Log): nat
    decreases |l|
  {
    if l == [] || Last(l).Started? then 0 else Digs(Before(l)) + if Last(l).Dug? then 1 else 0
  }

  ghost function Limit(l: Log): nat
    decreases |l|
  {
    if l == [] then 0 else if Last(l).Started? then Last(l).limit else Limit(Before(l))
  }

  /** The grants and digs since the last start, in order. */
  ghost function Work(l: Log): seq<Act>
    decreases |l|
  {
    if l == [] || Last(l).Started? then []
    else Work(Before(l)) + if Last(l).Granted? || Last(l).Dug? then [Last(l)] else []
  }

  /** The guard's answers since the last start, in order. */
  ghost function Answers(l: Log): seq<Act>
    decreases |l|
  {
    if l == [] || Last(l).Started? then [] else Answers(Before(l)) + if Last(l).Answered? then [Last(l)] else []
  }

  /** The logs to fell after these answers: those of each allowed one that fits in what is left of the amount. */
  ghost function Reaped(answers: seq<Act>, amount: nat): seq<Site> {
    if answers == [] then []
    else
      var sofar, a := Reaped(answers[..|answers| - 1], amount), answers[|answers| - 1];
      if a.Answered? && a.allowed && |sofar| + |a.logs| <= amount then sofar + a.logs else sofar
  }

  ghost function Granteds(work: seq<Act>): seq<Site> {
    if work == [] then []
    else Granteds(work[..|work| - 1]) + if work[|work| - 1].Granted? then [work[|work| - 1].site] else []
  }

  /** The next log to fell. */
  ghost predicate Due(l: Log, site: Site) {
    Granteds(Work(l)) + [site] <= Reaped(Answers(l), Limit(l))
  }

  /** The places that need no further question after these answers. */
  ghost function Considered(answers: seq<Act>): set<Site> {
    if answers == [] then {}
    else
      var a := answers[|answers| - 1];
      Considered(answers[..|answers| - 1])
        + if a.Answered? then {a.site} + (if a.allowed then set p | p in a.logs else {}) else {}
  }

  /** From this point of the log on, the log at c was passed over. */
  ghost predicate WasPassedOver(l: Log, start: nat, c: Site) {
    exists i: nat :: start <= i < |l| && l[i].PassedOver? && l[i].site == c
  }

  /** Each of these was asked about, known from an answer, or passed over. */
  ghost predicate Handled(candidates: seq<Site>, seen: set<Site>, l: Log, start: nat) {
    forall c | c in candidates && c !in seen :: WasPassedOver(l, start, c)
  }

  /** Granting and digging logs one after the other. */
  ghost function Felling(logs: seq<Site>, floor: map<Kind, nat>): seq<Act> {
    if logs == [] then []
    else Felling(logs[..|logs| - 1], floor) + [Granted(logs[|logs| - 1]), Dug(logs[|logs| - 1], floor)]
  }

  /** The baseline of a trip that has dug and neither been settled nor forgotten. */
  ghost function Owing(l: Log): Option<map<Kind, nat>>
    decreases |l|
  {
    if l == [] || Last(l).Settled? || Last(l).Forgotten? then None
    else if Last(l).Dug? then Some(Last(l).floor)
    else Owing(Before(l))
  }

  /** The trip's books close: nothing above the baseline is left, and unless the player died
      meanwhile exactly the baseline is, the chest having gained what was taken up. */
  ghost predicate Closes(baseline: map<Kind, nat>, left: map<Kind, nat>, since: Books, now: Books, calm: bool) {
    forall k: Kind | k != Other ::
      && At(left, k) <= At(baseline, k)
      && (calm ==> At(left, k) == At(baseline, k))
      && (calm ==> now.banked(k) - since.banked(k) == now.gained(k) - since.gained(k))
  }

  /** What may follow a log. */
  ghost predicate Permitted(l: Log, a: Act) {
    && (Acts(a) ==> Running(l) && !Halted(l))
    && match a
       case Started(_) => !Running(l)
       case PassedOver(_, late, slots, places) => late || slots > 33 || places >= 60
       case Granted(site) => Due(l, site)
       case Dug(site, _) => l != [] && Last(l) == Granted(site) && Digs(l) < Limit(l)
       case Deposited(count, held, least) => held - count >= least
       case Settled(baseline, left, since, now, calm) => Running(l) && Closes(baseline, left, since, now, calm)
       case _ => true
  }

  ghost predicate Lawful(l: Log)
    decreases |l|
  {
    l != [] ==> Lawful(Before(l)) && Permitted(Before(l), Last(l))
  }

  lemma Extend(l: Log, a: Act)
    ensures Before(l + [a]) == l && Last(l + [a]) == a
  {
  }

  /** An act within a trip. */
  lemma Goes(l: Log, a: Act)
    requires !a.Started? && !a.Ended? && !a.Restarted?
    ensures Running(l + [a]) == Running(l) && Limit(l + [a]) == Limit(l)
    ensures Digs(l + [a]) == Digs(l) + if a.Dug? then 1 else 0
    ensures !a.Dug? && !a.Settled? && !a.Forgotten? ==> Owing(l + [a]) == Owing(l)
    ensures Work(l + [a]) == Work(l) + if a.Granted? || a.Dug? then [a] else []
    ensures Answers(l + [a]) == Answers(l) + if a.Answered? then [a] else []
    ensures Halted(l + [a]) == (a.StopAccepted? || a.Interrupted? || Halted(l))
  {
    Extend(l, a);
  }

  lemma {:induction false} FellingPrefix(logs: seq<Site>, i: nat, floor: map<Kind, nat>)
    requires i <= |logs|
    ensures Felling(logs[..i], floor) <= Felling(logs, floor)
    decreases |logs|
  {
    if i == |logs| {
      assert logs[..i] == logs;
    } else {
      FellingPrefix(logs[..|logs| - 1], i, floor);
      assert logs[..|logs| - 1][..i] == logs[..i];
    }
  }

  lemma FellingStep(logs: seq<Site>, i: nat, floor: map<Kind, nat>)
    requires i < |logs|
    ensures Felling(logs[..i + 1], floor) == Felling(logs[..i], floor) + [Granted(logs[i]), Dug(logs[i], floor)]
    ensures Felling(logs[..i + 1], floor) <= Felling(logs, floor)
  {
    assert logs[..i + 1][..i] == logs[..i];
    FellingPrefix(logs, i + 1, floor);
  }

  lemma {:induction false} GrantedsOfFelling(work: seq<Act>, logs: seq<Site>, floor: map<Kind, nat>)
    ensures Granteds(work + Felling(logs, floor)) == Granteds(work) + logs
    decreases |logs|
  {
    hide Granteds;
    if logs == [] {
      assert work + Felling(logs, floor) == work;
    } else {
      var rest, site := logs[..|logs| - 1], logs[|logs| - 1];
      var acts := work + Felling(rest, floor);
      GrantedsOfFelling(work, rest, floor);
      assert work + Felling(logs, floor) == (acts + [Granted(site)]) + [Dug(site, floor)];
      GrantedsOfOne(acts, Granted(site));
      GrantedsOfOne(acts + [Granted(site)], Dug(site, floor));
    }
  }

  lemma GrantedsOfOne(work: seq<Act>, a: Act)
    ensures Granteds(work + [a]) == Granteds(work) + if a.Granted? then [a.site] else []
  {
    assert (work + [a])[..|work|] == work;
  }

  lemma FellingSum(logs: seq<Site>, more: seq<Site>, floor: map<Kind, nat>)
    ensures Felling(logs + more, floor) == Felling(logs, floor) + Felling(more, floor)
    decreases |more|
  {
    if more == [] {
      assert logs + more == logs;
    } else {
      assert (logs + more)[..|logs + more| - 1] == logs + more[..|more| - 1];
      FellingSum(logs, more[..|more| - 1], floor);
    }
  }

  lemma NextIsDue(l: Log, work: seq<Act>, logs: seq<Site>, i: nat, floor: map<Kind, nat>)
    requires i < |logs| && Work(l) == work + Felling(logs[..i], floor)
    requires Granteds(work) + logs <= Reaped(Answers(l), Limit(l))
    ensures Due(l, logs[i])
  {
    hide Work, Granteds, Felling, Reaped, Answers, Limit;
    GrantedsOfFelling(work, logs[..i], floor);
    assert logs[..i] + [logs[i]] == logs[..i + 1];
    assert Granteds(work) + logs[..i] + [logs[i]] == (Granteds(work) + logs)[..|Granteds(work)| + i + 1];
  }

  /** What one more answer adds to the logs to fell, when those so far have been felled. */
  lemma AnswerAdds(answers: seq<Act>, a: Act, amount: nat, floor: map<Kind, nat>)
    ensures var so, more := Reaped(answers, amount),
        if a.Answered? && a.allowed && |Reaped(answers, amount)| + |a.logs| <= amount then a.logs else [];
      && Reaped(answers + [a], amount) == so + more && Granteds(Felling(so, floor)) + more == so + more
      && Felling(so + more, floor) == Felling(so, floor) + Felling(more, floor)
      && (more == [] ==> so + more == so)
  {
    hide Granteds, Felling;
    var so, more := Reaped(answers, amount),
      if a.Answered? && a.allowed && |Reaped(answers, amount)| + |a.logs| <= amount then a.logs else [];
    ReapedOneMore(answers, a, amount);
    FellingSum(so, more, floor);
    NoGrants();
    GrantedsOfFelling([], so, floor);
    assert [] + Felling(so, floor) == Felling(so, floor);
  }

  lemma ConsideredOneMore(before: seq<Act>, answers: seq<Act>, a: Act)
    requires before <= answers && a.Answered?
    ensures Considered((answers + [a])[|before|..]) ==
      Considered(answers[|before|..]) + {a.site} + if a.allowed then set p | p in a.logs else {}
  {
    assert (answers + [a])[|before|..] == answers[|before|..] + [a];
    assert (answers[|before|..] + [a])[..|answers[|before|..]|] == answers[|before|..];
  }

  lemma NothingConsidered(answers: seq<Act>)
    ensures Considered(answers[|answers|..]) == {}
  {
  }

  lemma StillHandled(candidates: seq<Site>, seen: set<Site>, seen': set<Site>, l: Log, l': Log, start: nat)
    requires Handled(candidates, seen, l, start) && l <= l' && seen <= seen'
    ensures Handled(candidates, seen', l', start)
  {
    forall c | c in candidates && c !in seen'
      ensures WasPassedOver(l', start, c)
    {
      var i: nat :| start <= i < |l| && l[i].PassedOver? && l[i].site == c;
      assert l'[i] == l[i];
    }
  }

  lemma NothingReaped(l: Log, amount: nat, floor: map<Kind, nat>)
    requires Work(l) == [] && Answers(l) == []
    ensures Felling(Reaped(Answers(l), amount), floor) == Work(l) && |Reaped(Answers(l), amount)| == 0
  {
  }

  lemma NoGrants()
    ensures Granteds([]) == []
  {
  }

  lemma ReapedOneMore(answers: seq<Act>, a: Act, amount: nat)
    ensures Reaped(answers + [a], amount) == Reaped(answers, amount) +
      if a.Answered? && a.allowed && |Reaped(answers, amount)| + |a.logs| <= amount then a.logs else []
  {
    assert (answers + [a])[..|answers|] == answers;
  }

  /** An answer has all its logs in what is reaped if it allows them and they fit in what is left, and
      never does what is reaped exceed the amount. */
  lemma {:induction false} ReapedInOrder(answers: seq<Act>, amount: nat, k: nat)
    requires k <= |answers|
    ensures |Reaped(answers, amount)| <= amount && Reaped(answers[..k], amount) <= Reaped(answers, amount)
    ensures k < |answers| && answers[k].Answered? && answers[k].allowed
      && |Reaped(answers[..k], amount)| + |answers[k].logs| <= amount
      ==> Reaped(answers[..k], amount) + answers[k].logs <= Reaped(answers, amount)
    decreases |answers|
  {
    if answers == [] {
      assert answers[..k] == [];
    } else if k == |answers| {
      ReapedInOrder(answers[..|answers| - 1], amount, k - 1);
      assert answers[..k] == answers;
    } else {
      var front := answers[..|answers| - 1];
      assert front[..k] == answers[..k];
      ReapedInOrder(front, amount, k);
      assert front + [answers[|answers| - 1]] == answers;
      ReapedOneMore(front, answers[|answers| - 1], amount);
    }
  }

  /** What is reaped comes from an allowed answer. */
  lemma {:induction false} ReapedIsAllowed(answers: seq<Act>, amount: nat, site: Site)
    requires site in Reaped(answers, amount)
    ensures exists k :: 0 <= k < |answers| && answers[k].Answered? && answers[k].allowed && site in answers[k].logs
  {
    var front, last := answers[..|answers| - 1], answers[|answers| - 1];
    if site in Reaped(front, amount) {
      ReapedIsAllowed(front, amount, site);
      var k :| 0 <= k < |front| && front[k].Answered? && front[k].allowed && site in front[k].logs;
      assert answers[k] == front[k];
    } else {
      assert answers[|answers| - 1].allowed && site in last.logs;
    }
  }

  /** The start of a trip. */
  lemma Starts(l: Log, limit: nat)
    requires !Running(l)
    ensures var l' := l + [Started(limit)];
      && Permitted(l, Started(limit)) && Running(l') && !Halted(l')
      && Limit(l') == limit && Digs(l') == 0 && Work(l') == [] && Answers(l') == [] && Owing(l') == Owing(l)
  {
    Extend(l, Started(limit));
  }

  /** The end of a trip. */
  lemma Stops(l: Log, a: Act)
    requires Lawful(l) && (a.Ended? || a.Restarted?)
    ensures Permitted(l, a) && !Running(l + [a]) && Owing(l + [a]) == Owing(l)
    ensures Work(l + [a]) == Work(l) && Answers(l + [a]) == Answers(l)
  {
    Extend(l, a);
  }

  lemma {:induction false} LawfulThroughout(l: Log, i: nat)
    requires Lawful(l) && i < |l|
    ensures Lawful(l[..i]) && Permitted(l[..i], l[i])
    decreases |l|
  {
    if i < |l| - 1 {
      LawfulThroughout(Before(l), i);
      assert Before(l)[..i] == l[..i];
    }
  }

  lemma {:induction false} StaysHalted(l: Log, i: nat, j: nat)
    requires i < j <= |l| && (l[i].StopAccepted? || l[i].Interrupted?)
    requires forall k | i < k < j :: !l[k].Started?
    ensures Halted(l[..j])
    decreases j
  {
    assert Last(l[..j]) == l[j - 1] && Before(l[..j]) == l[..j - 1];
    if i < j - 1 {
      StaysHalted(l, i, j - 1);
    }
  }

  /** Main result: after a stop or an interruption nothing is dug, opened or deposited before
      another start. */
  lemma StopIsFinal(l: Log, i: nat, j: nat)
    requires Lawful(l) && i < j < |l| && (l[i].StopAccepted? || l[i].Interrupted?)
    requires forall k | i < k < j :: !l[k].Started?
    ensures !Acts(l[j])
  {
    StaysHalted(l, i, j);
    LawfulThroughout(l, j);
  }

  lemma {:induction false} StaysRunning(l: Log, i: nat, j: nat)
    requires i < j <= |l| && l[i].Started?
    requires forall k | i < k < j :: !l[k].Ended? && !l[k].Restarted?
    ensures Running(l[..j])
    decreases j
  {
    assert Last(l[..j]) == l[j - 1] && Before(l[..j]) == l[..j - 1];
    if i < j - 1 {
      StaysRunning(l, i, j - 1);
    }
  }

  /** Two starts have an end between them: one trip is under way at a time. */
  lemma OneTripAtATime(l: Log, i: nat, j: nat)
    requires Lawful(l) && i < j < |l| && l[i].Started? && l[j].Started?
    ensures exists k :: i < k < j && (l[k].Ended? || l[k].Restarted?)
  {
    if forall k | i < k < j :: !l[k].Ended? && !l[k].Restarted? {
      StaysRunning(l, i, j);
      LawfulThroughout(l, j);
      assert false;
    }
  }

  /** The sites dug in a log, in order. */
  ghost function DugSites(l: Log): seq<Site>
    decreases |l|
  {
    if l == [] then [] else DugSites(Before(l)) + if Last(l).Dug? then [Last(l).site] else []
  }

  /** Main result: a trip digs no more logs than were asked for. */
  lemma {:induction false} DigsWithinLimit(l: Log, i: nat)
    requires Lawful(l) && i < |l| && l[i].Started?
    requires forall k | i < k < |l| :: !l[k].Started?
    ensures |DugSites(l[i..])| == Digs(l) <= Limit(l) == l[i].limit
    decreases |l|
  {
    if i == |l| - 1 {
      assert l[i..] == [Last(l)] && Before([Last(l)]) == [];
    } else {
      DigsWithinLimit(Before(l), i);
      assert Before(l[i..]) == Before(l)[i..] && Last(l[i..]) == Last(l);
    }
  }

  /** Each log is dug right after the guard granted it, with no wait in between. */
  lemma DugWhenGranted(l: Log, j: nat)
    requires Lawful(l) && j < |l| && l[j].Dug?
    ensures j > 0 && l[j - 1] == Granted(l[j].site)
  {
    LawfulThroughout(l, j);
  }

  /** An answer that allows the log, with no start since. */
  ghost predicate Allows(l: Log, i: nat, site: Site) {
    && i < |l| && l[i].Answered? && l[i].allowed && site in l[i].logs
    && forall k | i <= k < |l| :: !l[k].Started?
  }

  lemma {:induction false} AnswerIsNoted(l: Log, a: Act, site: Site)
    requires a in Answers(l) && a.Answered? && a.allowed && site in a.logs
    ensures exists i: nat :: Allows(l, i, site)
    decreases |l|
  {
    if a in Answers(Before(l)) {
      AnswerIsNoted(Before(l), a, site);
      var i: nat :| Allows(Before(l), i, site);
      forall k | i <= k < |l|
        ensures !l[k].Started?
      {
        if k < |l| - 1 {
          assert l[k] == Before(l)[k];
        }
      }
      assert Allows(l, i, site);
    } else {
      assert Allows(l, |l| - 1, site);
    }
  }

  lemma DueIsAllowed(l: Log, site: Site)
    requires Due(l, site)
    ensures exists i: nat :: Allows(l, i, site)
  {
    var reaped := Reaped(Answers(l), Limit(l));
    assert reaped[|Granteds(Work(l))|] == site;
    hide Work, Limit;
    ReapedIsAllowed(Answers(l), Limit(l), site);
    var k :| 0 <= k < |Answers(l)| && Answers(l)[k].Answered? && Answers(l)[k].allowed && site in Answers(l)[k].logs;
    AnswerIsNoted(l, Answers(l)[k], site);
  }

  /** Main result: a trip is granted the logs of the guard's allowed answers that fit in the amount, one
      after the other in their order, and nothing else. */
  lemma {:induction false} GrantsAreReaped(l: Log)
    requires Lawful(l)
    ensures Granteds(Work(l)) <= Reaped(Answers(l), Limit(l))
    decreases |l|
  {
    if l != [] && !Last(l).Started? {
      GrantsAreReaped(Before(l));
      GrantedsOfOne(Work(Before(l)), Last(l));
      ReapedOneMore(Answers(Before(l)), Last(l), Limit(l));
      if !Last(l).Answered? {
        assert Answers(l) == Answers(Before(l));
      }
      if !Last(l).Granted? && !Last(l).Dug? {
        assert Work(l) == Work(Before(l));
      }
    }
  }

  /** Main result: every log granted or dug is among those of an answer that allowed it during the same trip. */
  lemma GrantedWhenAllowed(l: Log, j: nat)
    requires Lawful(l) && j < |l| && (l[j].Granted? || l[j].Dug?)
    ensures exists i: nat :: Allows(l[..j], i, l[j].site)
  {
    LawfulThroughout(l, j);
    if l[j].Granted? {
      DueIsAllowed(l[..j], l[j].site);
    } else {
      LawfulThroughout(l, j - 1);
      DueIsAllowed(l[..j - 1], l[j].site);
      var i: nat :| Allows(l[..j - 1], i, l[j].site);
      assert Before(l[..j]) == l[..j - 1] && Last(l[..j]) == l[j - 1];
      forall k | i <= k < j
        ensures !l[..j][k].Started?
      {
        if k < j - 1 {
          assert l[..j][k] == l[..j - 1][k];
        }
      }
      assert l[..j][i] == l[..j - 1][i];
      assert Allows(l[..j], i, l[j].site);
    }
  }

  /** What is dug stays owed, through stops, failures and crashes, until a settlement or a reset. */
  lemma {:induction false} OwedUntilClosed(l: Log, i: nat)
    requires i < |l| && l[i].Dug?
    requires forall k | i < k < |l| :: !l[k].Settled? && !l[k].Forgotten?
    ensures Owing(l).Some?
    ensures (forall k | i < k < |l| :: !l[k].Dug?) ==> Owing(l) == Some(l[i].floor)
    decreases |l|
  {
    if i < |l| - 1 && !Last(l).Dug? {
      OwedUntilClosed(Before(l), i);
    }
  }
}
