/** What the handler guarantees, stated over whole invocations of `Dispatch`: validation
    before any call, rank resolution before `setRank`, log writes only after a mutation
    returns, the catch-all reply, the read-only commands and their views of the log. */
module Guarantees {
  import opened Wrappers
  import opened Ranks
  import opened Audit
  import opened Dispatcher

  /** The commands that validate a username before doing anything else. */
  predicate NeedsUsername(cmd: Command)
  {
    cmd in {PromoteCmd, DemoteCmd, KickCmd, SetRankCmd, RankHistoryCmd}
  }

  /** The commands that only read. */
  predicate ReadOnly(cmd: Command)
  {
    cmd in {RankInfoCmd, RankHistoryCmd, AuditLogCmd}
  }

  /** A mutation call whose answer is a value rather than a throw. */
  predicate Settled(gw: Gateway, c: Call)
  {
    match c
    case PromoteUser(_) => gw.promoted.Resolved?
    case DemoteUser(_) => gw.demoted.Resolved?
    case ExileUser(_) => gw.exiled.Resolved?
    case SetUserRank(_, _) => gw.rankSet.Resolved?
    case _ => false
  }

  /** Some call the command awaits rejects, taking the calls in the order the command
      makes them and stopping at a validation or resolution failure. */
  ghost predicate Rejects(cmd: Command, ev: Event, gw: Gateway)
  {
    match cmd
    case RankInfoCmd => gw.roles.Rejected?
    case PromoteCmd => Given(ev.username) && (gw.userId.Rejected? || gw.promoted.Rejected?)
    case DemoteCmd => Given(ev.username) && (gw.userId.Rejected? || gw.demoted.Rejected?)
    case KickCmd =>
      Given(ev.username) && (gw.userId.Rejected? || gw.groupName.Rejected? || gw.exiled.Rejected?)
    case SetRankCmd =>
      Given(ev.username) &&
      (gw.userId.Rejected? || gw.roles.Rejected? ||
       (Resolve(gw.roles.value, ev.rankNumber, ev.rankName).Some? && gw.rankSet.Rejected?))
    case _ => false
  }

  /** A `deferReply` or a `reply`: the initial response to an interaction (`editReply`
      changes a response already given). */
  predicate IsInitial(x: Effect)
  {
    x.Respond? && !x.response.EditReply?
  }

  /** Position `i` holds the only initial response of the trace. */
  predicate OnlyInitialAt(t: seq<Effect>, i: int)
  {
    0 <= i < |t| && IsInitial(t[i]) && forall j :: 0 <= j < |t| && IsInitial(t[j]) ==> j == i
  }

  /** Exactly one effect of the trace is an initial response. */
  ghost predicate RespondsOnce(t: seq<Effect>)
  {
    exists i :: OnlyInitialAt(t, i)
  }

  /** No effect of the trace writes to the log. */
  predicate NoWrites(t: seq<Effect>)
  {
    forall i :: 0 <= i < |t| ==> !t[i].Write?
  }

  /** A write comes only right after a mutation call that returned, and only as the
      next-to-last effect, with a reply after it. */
  ghost predicate WritesAfterMutation(t: seq<Effect>, gw: Gateway)
  {
    forall i :: 0 <= i < |t| && t[i].Write? ==>
      && 0 < i && t[i - 1].Invoke? && IsMutation(t[i - 1].call) && Settled(gw, t[i - 1].call)
      && i + 2 == |t| && t[i + 1].Respond?
  }

  /** The reply of the catch block: an ephemeral embed. */
  predicate IsCatchReply(x: Effect)
  {
    x.Respond? && x.response.Reply? && x.response.body.Embed? && x.response.ephemeral
  }

  /** No effect of the trace is an initial response. */
  predicate Quiet(t: seq<Effect>)
  {
    forall i :: 0 <= i < |t| ==> !IsInitial(t[i])
  }

  /** The last effect is the only initial response. */
  predicate AnswersLast(t: seq<Effect>)
  {
    t != [] && IsInitial(t[|t| - 1]) && Quiet(t[..|t| - 1])
  }

  /** What the branch of each command keeps to in the log: a write only after a settled
      mutation, at most one write, and none at all when it throws. */
  ghost predicate WritesOk(cmd: Command, ev: Event, gw: Gateway, now: int, log: seq<Entry>)
  {
    var a := Run(cmd, ev, gw, now, log);
    WritesAfterMutation(a.trace, gw) && |Written(a.trace)| <= 1 && (a.Threw? ==> NoWrites(a.trace))
  }

  /** An attempt that answers once, at its end, when it finishes, and not at all before it
      throws. */
  predicate Ordinary(a: Attempt)
  {
    (a.Threw? ==> Quiet(a.trace)) && (a.Finished? ==> AnswersLast(a.trace))
  }

  /** How the branch of each command answers: never in the style of the catch block; outside
      rankinfo once at its end, or not at all before it throws; and it throws exactly when one
      of the calls it awaits rejects. */
  ghost predicate AnswersOk(cmd: Command, ev: Event, gw: Gateway, now: int, log: seq<Entry>)
  {
    var a := Run(cmd, ev, gw, now, log);
    && (a.Finished? ==> forall i :: 0 <= i < |a.trace| ==> !IsCatchReply(a.trace[i]))
    && (cmd !in {RankInfoCmd, Unhandled} ==> Ordinary(a))
    && (a.Threw? <==> Rejects(cmd, ev, gw))
  }

  lemma NoWriteShape(t: seq<Effect>, gw: Gateway)
    requires NoWrites(t)
    ensures WritesAfterMutation(t, gw) && Written(t) == []
  {
    WrittenNone(t);
  }
  lemma WriteShape(t: seq<Effect>, gw: Gateway)
    requires |t| >= 3 && t[|t| - 2].Write? && t[|t| - 1].Respond?
    requires t[|t| - 3].Invoke? && IsMutation(t[|t| - 3].call) && Settled(gw, t[|t| - 3].call)
    requires forall j :: 0 <= j < |t| - 2 ==> !t[j].Write?
    ensures WritesAfterMutation(t, gw) && Written(t) == [t[|t| - 2].entry]
  {
    var k := |t| - 2;
    WrittenOnce(t[..k], t[k].entry, t[k + 1].response);
    assert t == t[..k] + [Write(t[k].entry), Respond(t[k + 1].response)];
  }
  lemma AnswersLastOnce(t: seq<Effect>)
    requires AnswersLast(t)
    ensures RespondsOnce(t)
  {
    var i := |t| - 1;
    forall j | 0 <= j < |t| && IsInitial(t[j])
      ensures j == i
    {
    }
    assert OnlyInitialAt(t, i);
  }
  lemma PromoteWrites(ev: Event, gw: Gateway, now: int, log: seq<Entry>)
    ensures WritesOk(PromoteCmd, ev, gw, now, log)
  {
    var t := Run(PromoteCmd, ev, gw, now, log).trace;
    if Given(ev.username) && gw.userId.Resolved? && gw.promoted.Resolved? {
      WriteShape(t, gw);
    } else {
      NoWriteShape(t, gw);
    }
  }

  lemma PromoteAnswers(ev: Event, gw: Gateway, now: int, log: seq<Entry>)
    ensures AnswersOk(PromoteCmd, ev, gw, now, log)
  {
  }

  lemma DemoteWrites(ev: Event, gw: Gateway, now: int, log: seq<Entry>)
    ensures WritesOk(DemoteCmd, ev, gw, now, log)
  {
    var t := Run(DemoteCmd, ev, gw, now, log).trace;
    if Given(ev.username) && gw.userId.Resolved? && gw.demoted.Resolved? {
      WriteShape(t, gw);
    } else {
      NoWriteShape(t, gw);
    }
  }

  lemma DemoteAnswers(ev: Event, gw: Gateway, now: int, log: seq<Entry>)
    ensures AnswersOk(DemoteCmd, ev, gw, now, log)
  {
  }

  lemma KickWrites(ev: Event, gw: Gateway, now: int, log: seq<Entry>)
    ensures WritesOk(KickCmd, ev, gw, now, log)
  {
    var t := Run(KickCmd, ev, gw, now, log).trace;
    if Given(ev.username) && gw.userId.Resolved? && gw.groupName.Resolved? && gw.exiled.Resolved? {
      WriteShape(t, gw);
    } else {
      NoWriteShape(t, gw);
    }
  }

  lemma KickAnswers(ev: Event, gw: Gateway, now: int, log: seq<Entry>)
    ensures AnswersOk(KickCmd, ev, gw, now, log)
  {
  }

  lemma SetRankWrites(ev: Event, gw: Gateway, now: int, log: seq<Entry>)
    ensures WritesOk(SetRankCmd, ev, gw, now, log)
  {
    var t := Run(SetRankCmd, ev, gw, now, log).trace;
    if Given(ev.username) && gw.userId.Resolved? && gw.roles.Resolved? && gw.rankSet.Resolved? &&
       Resolve(gw.roles.value, ev.rankNumber, ev.rankName).Some? {
      WriteShape(t, gw);
    } else {
      NoWriteShape(t, gw);
    }
  }

  lemma SetRankAnswers(ev: Event, gw: Gateway, now: int, log: seq<Entry>)
    ensures AnswersOk(SetRankCmd, ev, gw, now, log)
  {
    if Given(ev.username) && gw.userId.Resolved? && gw.roles.Resolved? {
      var target := Resolve(gw.roles.value, ev.rankNumber, ev.rankName);
      if target.Some? {
        assert Rejects(SetRankCmd, ev, gw) <==> gw.rankSet.Rejected?;
      } else {
        assert !Rejects(SetRankCmd, ev, gw);
      }
    }
  }

  lemma RankInfoWrites(ev: Event, gw: Gateway, now: int, log: seq<Entry>)
    ensures WritesOk(RankInfoCmd, ev, gw, now, log)
  {
    NoWriteShape(Run(RankInfoCmd, ev, gw, now, log).trace, gw);
  }

  lemma RankInfoAnswers(ev: Event, gw: Gateway, now: int, log: seq<Entry>)
    ensures AnswersOk(RankInfoCmd, ev, gw, now, log)
  {
  }

  lemma RankHistoryWrites(ev: Event, gw: Gateway, now: int, log: seq<Entry>)
    ensures WritesOk(RankHistoryCmd, ev, gw, now, log)
  {
    NoWriteShape(Run(RankHistoryCmd, ev, gw, now, log).trace, gw);
  }

  lemma RankHistoryAnswers(ev: Event, gw: Gateway, now: int, log: seq<Entry>)
    ensures AnswersOk(RankHistoryCmd, ev, gw, now, log)
  {
  }

  lemma AuditLogWrites(ev: Event, gw: Gateway, now: int, log: seq<Entry>)
    ensures WritesOk(AuditLogCmd, ev, gw, now, log)
  {
    NoWriteShape(Run(AuditLogCmd, ev, gw, now, log).trace, gw);
  }

  lemma AuditLogAnswers(ev: Event, gw: Gateway, now: int, log: seq<Entry>)
    ensures AnswersOk(AuditLogCmd, ev, gw, now, log)
  {
  }

  lemma UnhandledWrites(ev: Event, gw: Gateway, now: int, log: seq<Entry>)
    ensures WritesOk(Unhandled, ev, gw, now, log)
  {
    NoWriteShape(Run(Unhandled, ev, gw, now, log).trace, gw);
  }

  lemma UnhandledAnswers(ev: Event, gw: Gateway, now: int, log: seq<Entry>)
    ensures AnswersOk(Unhandled, ev, gw, now, log)
  {
  }

  /** Every branch of the `try` block keeps to the write discipline, one command at a time. */
  lemma RunWrites(cmd: Command, ev: Event, gw: Gateway, now: int, log: seq<Entry>)
    ensures WritesOk(cmd, ev, gw, now, log)
  {
    match cmd
    case PromoteCmd => PromoteWrites(ev, gw, now, log);
    case DemoteCmd => DemoteWrites(ev, gw, now, log);
    case KickCmd => KickWrites(ev, gw, now, log);
    case SetRankCmd => SetRankWrites(ev, gw, now, log);
    case RankInfoCmd => RankInfoWrites(ev, gw, now, log);
    case RankHistoryCmd => RankHistoryWrites(ev, gw, now, log);
    case AuditLogCmd => AuditLogWrites(ev, gw, now, log);
    case Unhandled => UnhandledWrites(ev, gw, now, log);
  }

  /** Every branch of the `try` block answers so, one command at a time. */
  lemma RunAnswers(cmd: Command, ev: Event, gw: Gateway, now: int, log: seq<Entry>)
    ensures AnswersOk(cmd, ev, gw, now, log)
  {
    match cmd
    case PromoteCmd => PromoteAnswers(ev, gw, now, log);
    case DemoteCmd => DemoteAnswers(ev, gw, now, log);
    case KickCmd => KickAnswers(ev, gw, now, log);
    case SetRankCmd => SetRankAnswers(ev, gw, now, log);
    case RankInfoCmd => RankInfoAnswers(ev, gw, now, log);
    case RankHistoryCmd => RankHistoryAnswers(ev, gw, now, log);
    case AuditLogCmd => AuditLogAnswers(ev, gw, now, log);
    case Unhandled => UnhandledAnswers(ev, gw, now, log);
  }

  /** A non-command interaction, or a command name no branch handles, produces nothing. */
  lemma IgnoredEvents(ev: Event, gw: Gateway, now: int, log: seq<Entry>)
    requires !ev.isCommand || Route(ev.commandName) == Unhandled
    ensures Dispatch(ev, gw, now, log) == []
  {
  }

  /** Without a username, promote, demote, kick, setrank and rankhistory answer with one
      ephemeral notice, make no gateway call and write nothing to the log. */
  lemma MissingUsernameStopsEarly(ev: Event, gw: Gateway, now: int, log: seq<Entry>)
    requires ev.isCommand && NeedsUsername(Route(ev.commandName)) && !Given(ev.username)
    ensures Dispatch(ev, gw, now, log) == [Respond(Reply(Content("Please provide a username."), true))]
    ensures Written(Dispatch(ev, gw, now, log)) == []
  {
  }

  /** A setrank whose rank does not resolve answers with one ephemeral notice after the two
      lookups: no `setRank` call and no log write. */
  lemma UnresolvedRankStopsBeforeSetRank(ev: Event, gw: Gateway, now: int, log: seq<Entry>)
    requires ev.isCommand && Route(ev.commandName) == SetRankCmd && Given(ev.username)
    requires gw.userId.Resolved? && gw.roles.Resolved?
    requires Resolve(gw.roles.value, ev.rankNumber, ev.rankName).None?
    ensures Dispatch(ev, gw, now, log) ==
              [Invoke(GetIdFromUsername(ev.username.value)), Invoke(GetRoles),
               Respond(Reply(Content("Could not find a matching rank."), true))]
    ensures Written(Dispatch(ev, gw, now, log)) == []
  {
    WrittenNone(Dispatch(ev, gw, now, log));
  }

  /** A rank number that no catalog entry carries is an unresolved rank, whatever rank name
      comes with it, so such a setrank never reaches `setRank`. */
  lemma UnknownNumberNeverSetsRank(ev: Event, gw: Gateway, now: int, log: seq<Entry>)
    requires ev.isCommand && Route(ev.commandName) == SetRankCmd && Given(ev.username)
    requires gw.userId.Resolved? && gw.roles.Resolved? && NumberGiven(ev.rankNumber)
    requires forall j :: 0 <= j < |gw.roles.value| ==> gw.roles.value[j].rank != ev.rankNumber.value
    ensures forall i :: 0 <= i < |Dispatch(ev, gw, now, log)| ==> !Dispatch(ev, gw, now, log)[i].Write?
    ensures forall c :: Invoke(c) in Dispatch(ev, gw, now, log) ==> !c.SetUserRank?
  {
    UnresolvedRankStopsBeforeSetRank(ev, gw, now, log);
  }

  /** A log write always comes right after a mutation call that returned, and is followed
      by exactly one reply, the last effect; no invocation writes more than once. */
  lemma WriteFollowsMutation(ev: Event, gw: Gateway, now: int, log: seq<Entry>)
    ensures WritesAfterMutation(Dispatch(ev, gw, now, log), gw)
    ensures |Written(Dispatch(ev, gw, now, log))| <= 1
  {
    var t := Dispatch(ev, gw, now, log);
    var a := Try(ev, gw, now, log);
    RunWrites(Route(ev.commandName), ev, gw, now, log);
    if !ev.isCommand {
      NoWriteShape(t, gw);
    } else if a.Threw? {
      assert t == a.trace + [Respond(FailureReply(ev))];
      NoWriteShape(t, gw);
    }
  }

  /** A successful promote logs the user with the role `promote` reports afterwards. */
  lemma PromoteRecordsNewRole(ev: Event, gw: Gateway, now: int, log: seq<Entry>)
    requires ev.isCommand && Route(ev.commandName) == PromoteCmd && Given(ev.username)
    requires gw.userId.Resolved? && gw.promoted.Resolved?
    ensures Written(Dispatch(ev, gw, now, log)) == [Entry(ev.username.value, Promoted, Some(gw.promoted.value), now)]
  {
    var t := Dispatch(ev, gw, now, log);
    WrittenOnce(t[..2], t[2].entry, t[3].response);
    assert t == t[..2] + [t[2], t[3]];
  }

  /** A successful demote logs the user with the role `demote` reports afterwards. */
  lemma DemoteRecordsNewRole(ev: Event, gw: Gateway, now: int, log: seq<Entry>)
    requires ev.isCommand && Route(ev.commandName) == DemoteCmd && Given(ev.username)
    requires gw.userId.Resolved? && gw.demoted.Resolved?
    ensures Written(Dispatch(ev, gw, now, log)) == [Entry(ev.username.value, Demoted, Some(gw.demoted.value), now)]
  {
    var t := Dispatch(ev, gw, now, log);
    WrittenOnce(t[..2], t[2].entry, t[3].response);
    assert t == t[..2] + [t[2], t[3]];
  }

  /** A successful kick logs the user with no rank. */
  lemma KickRecordsNoRank(ev: Event, gw: Gateway, now: int, log: seq<Entry>)
    requires ev.isCommand && Route(ev.commandName) == KickCmd && Given(ev.username)
    requires gw.userId.Resolved? && gw.groupName.Resolved? && gw.exiled.Resolved?
    ensures Written(Dispatch(ev, gw, now, log)) == [Entry(ev.username.value, Kicked, None, now)]
  {
    var t := Dispatch(ev, gw, now, log);
    WrittenOnce(t[..3], t[3].entry, t[4].response);
    assert t == t[..3] + [t[3], t[4]];
  }

  /** A successful setrank sets and logs the descriptor the resolver picked. */
  lemma SetRankRecordsResolved(ev: Event, gw: Gateway, now: int, log: seq<Entry>)
    requires ev.isCommand && Route(ev.commandName) == SetRankCmd && Given(ev.username)
    requires gw.userId.Resolved? && gw.roles.Resolved? && gw.rankSet.Resolved?
    requires Resolve(gw.roles.value, ev.rankNumber, ev.rankName).Some?
    ensures var target := Resolve(gw.roles.value, ev.rankNumber, ev.rankName).value;
      && Invoke(SetUserRank(gw.userId.value, target.rank)) in Dispatch(ev, gw, now, log)
      && Written(Dispatch(ev, gw, now, log)) == [Entry(ev.username.value, SetRank, Some(target), now)]
  {
    var t := Dispatch(ev, gw, now, log);
    WrittenOnce(t[..3], t[3].entry, t[4].response);
    assert t == t[..3] + [t[3], t[4]];
  }

  /** Exactly the invocations in which an awaited call throws end in the catch reply; that
      reply is their last effect and they write nothing to the log. */
  lemma RejectionEndsInCatch(ev: Event, gw: Gateway, now: int, log: seq<Entry>)
    requires ev.isCommand
    ensures Rejects(Route(ev.commandName), ev, gw) <==> Respond(FailureReply(ev)) in Dispatch(ev, gw, now, log)
    ensures Rejects(Route(ev.commandName), ev, gw) ==>
      var t := Dispatch(ev, gw, now, log);
      t[|t| - 1] == Respond(FailureReply(ev)) && Written(t) == []
  {
    var t := Dispatch(ev, gw, now, log);
    var a := Try(ev, gw, now, log);
    RunWrites(Route(ev.commandName), ev, gw, now, log);
    RunAnswers(Route(ev.commandName), ev, gw, now, log);
    if a.Threw? {
      assert t == a.trace + [Respond(FailureReply(ev))];
      NoWriteShape(t, gw);
    } else {
      assert IsCatchReply(Respond(FailureReply(ev)));
    }
  }

  /** rankinfo, rankhistory and auditlog never write to the log, and the only gateway call
      any of them makes is the catalog fetch. */
  lemma ReadOnlyCommandsLeaveLogAlone(ev: Event, gw: Gateway, now: int, log: seq<Entry>)
    requires ReadOnly(Route(ev.commandName))
    ensures Written(Dispatch(ev, gw, now, log)) == []
    ensures forall c :: Invoke(c) in Dispatch(ev, gw, now, log) ==> c == GetRoles
  {
    var t := Dispatch(ev, gw, now, log);
    assert forall i :: 0 <= i < |t| ==> !t[i].Write? && (t[i].Invoke? ==> t[i].call == GetRoles);
    WrittenNone(t);
  }

  /** rankinfo answers by editing its deferred reply with the catalog listing. */
  lemma RankInfoListsCatalog(ev: Event, gw: Gateway, now: int, log: seq<Entry>)
    requires ev.isCommand && Route(ev.commandName) == RankInfoCmd && gw.roles.Resolved?
    ensures Dispatch(ev, gw, now, log) ==
              [Respond(DeferReply), Invoke(GetRoles), Respond(EditReply(Embed(RankListing(gw.roles.value))))]
  {
  }

  /** auditlog on an empty log answers with one ephemeral notice; otherwise it shows one line
      for each of the first min(6, |log|) entries, newest first. */
  lemma AuditLogShowsLatest(ev: Event, gw: Gateway, now: int, log: seq<Entry>)
    requires ev.isCommand && Route(ev.commandName) == AuditLogCmd
    ensures log == [] ==> Dispatch(ev, gw, now, log) == [Respond(Reply(Content("No recent actions found."), true))]
    ensures log != [] ==> exists lines ::
      && Dispatch(ev, gw, now, log) == [Respond(Reply(Embed(lines), false))]
      && |lines| == Min(PageSize, |log|)
      && forall i :: 0 <= i < |lines| ==> lines[i] == AuditLine(log[i])
  {
    if log != [] {
      var lines := AuditLines(Latest(log, PageSize));
      assert Dispatch(ev, gw, now, log) == [Respond(Reply(Embed(lines), false))];
    }
  }

  /** rankhistory shows one line for each of the first six entries about the user (compared
      without case), in log order; with none it answers with one ephemeral notice. */
  lemma RankHistoryShowsUser(ev: Event, gw: Gateway, now: int, log: seq<Entry>)
    requires ev.isCommand && Route(ev.commandName) == RankHistoryCmd && Given(ev.username)
    ensures var matches := ByUser(log, ev.username.value);
      && (matches == [] ==>
            Dispatch(ev, gw, now, log) ==
              [Respond(Reply(Content(NoHistoryText(ev.username.value)), true))])
      && (matches != [] ==> exists lines ::
            && Dispatch(ev, gw, now, log) == [Respond(Reply(Embed(lines), false))]
            && |lines| == Min(PageSize, |matches|)
            && forall i :: 0 <= i < |lines| ==> lines[i] == HistoryLine(matches[i]))
  {
    var matches := ByUser(log, ev.username.value);
    if matches != [] {
      var lines := HistoryLines(HistoryFor(log, ev.username.value, PageSize));
      assert Dispatch(ev, gw, now, log) == [Respond(Reply(Embed(lines), false))];
    }
  }

  /** A promote that succeeds, followed by a rankhistory for the same user in any case,
      shows the new entry first. */
  lemma PromoteThenHistory(ev: Event, gw: Gateway, now: int, log: seq<Entry>, query: Event, later: int)
    requires ev.isCommand && Route(ev.commandName) == PromoteCmd && Given(ev.username)
    requires gw.userId.Resolved? && gw.promoted.Resolved?
    requires query.isCommand && Route(query.commandName) == RankHistoryCmd && Given(query.username)
    requires SameUser(ev.username.value, query.username.value)
    ensures var after := RecordAll(log, Written(Dispatch(ev, gw, now, log)));
      var e := Entry(ev.username.value, Promoted, Some(gw.promoted.value), now);
      exists lines :: Dispatch(query, gw, later, after) == [Respond(Reply(Embed(lines), false))] &&
                      lines != [] && lines[0] == HistoryLine(e)
  {
    PromoteRecordsNewRole(ev, gw, now, log);
    var e := Entry(ev.username.value, Promoted, Some(gw.promoted.value), now);
    var after := RecordAll(log, [e]);
    RecordOne(log, e);
    HistoryAfterRecord(log, e, query.username.value);
    RankHistoryShowsUser(query, gw, later, after);
    var matches := ByUser(after, query.username.value);
    assert matches[0] == e;
  }

  /** Every handled command answers with exactly one initial response, except a rankinfo
      whose catalog fetch throws. */
  lemma OneInitialResponse(ev: Event, gw: Gateway, now: int, log: seq<Entry>)
    requires ev.isCommand && Route(ev.commandName) != Unhandled
    requires !(Route(ev.commandName) == RankInfoCmd && gw.roles.Rejected?)
    ensures RespondsOnce(Dispatch(ev, gw, now, log))
  {
    if Route(ev.commandName) == RankInfoCmd {
      RankInfoListsCatalog(ev, gw, now, log);
      FirstOfThreeOnce(Dispatch(ev, gw, now, log));
    } else {
      OrdinaryRespondsOnce(ev, gw, now, log);
    }
  }

  lemma FirstOfThreeOnce(t: seq<Effect>)
    requires |t| == 3 && IsInitial(t[0]) && !IsInitial(t[1]) && !IsInitial(t[2])
    ensures RespondsOnce(t)
  {
    assert OnlyInitialAt(t, 0);
  }

  /** The commands other than rankinfo answer once whether or not they throw. */
  lemma OrdinaryRespondsOnce(ev: Event, gw: Gateway, now: int, log: seq<Entry>)
    requires ev.isCommand && Route(ev.commandName) !in {RankInfoCmd, Unhandled}
    ensures RespondsOnce(Dispatch(ev, gw, now, log))
  {
    var t := Dispatch(ev, gw, now, log);
    var a := Try(ev, gw, now, log);
    RunAnswers(Route(ev.commandName), ev, gw, now, log);
    if a.Threw? {
      assert t == a.trace + [Respond(FailureReply(ev))];
      assert t[..|t| - 1] == a.trace;
    }
    AnswersLastOnce(t);
  }

  /** As written, a rankinfo whose catalog fetch throws has already deferred its reply and
      then calls `reply` again from the catch block: two initial responses. */
  lemma RankInfoRejectionRespondsTwice(ev: Event, gw: Gateway, now: int, log: seq<Entry>)
    requires ev.isCommand && Route(ev.commandName) == RankInfoCmd && gw.roles.Rejected?
    ensures Dispatch(ev, gw, now, log) == [Respond(DeferReply), Invoke(GetRoles), Respond(FailureReply(ev))]
    ensures !RespondsOnce(Dispatch(ev, gw, now, log))
    ensures DispatchFixed(ev, gw, now, log) ==
              [Respond(DeferReply), Invoke(GetRoles), Respond(EditReply(FailureReply(ev).body))]
  {
    var t := Dispatch(ev, gw, now, log);
    assert IsInitial(t[0]) && IsInitial(t[2]);
  }

  /** With the corrected catch block every handled command answers exactly once, and every
      other invocation is left exactly as written. */
  lemma FixedRespondsOnce(ev: Event, gw: Gateway, now: int, log: seq<Entry>)
    requires ev.isCommand && Route(ev.commandName) != Unhandled
    ensures RespondsOnce(DispatchFixed(ev, gw, now, log))
    ensures !(Route(ev.commandName) == RankInfoCmd && gw.roles.Rejected?) ==>
              DispatchFixed(ev, gw, now, log) == Dispatch(ev, gw, now, log)
  {
    var t := DispatchFixed(ev, gw, now, log);
    var a := Try(ev, gw, now, log);
    if Route(ev.commandName) == RankInfoCmd {
      if gw.roles.Rejected? {
        assert Respond(DeferReply) in a.trace;
      }
      FirstOfThreeOnce(t);
    } else {
      RunAnswers(Route(ev.commandName), ev, gw, now, log);
      if a.Threw? {
        assert !(Respond(DeferReply) in a.trace) by {
          assert forall i :: 0 <= i < |a.trace| ==> !IsInitial(a.trace[i]);
        }
      }
      OneInitialResponse(ev, gw, now, log);
    }
  }
}
