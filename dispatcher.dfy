/** The `interactionCreate` handler: it routes one slash command, validates its username,
    resolves the target rank, awaits the group-management calls, records successful
    mutations in the action log and answers through the interaction. */
module Dispatcher {
  import opened Wrappers
  import opened Ranks
  import opened Audit

  /** How an awaited call settles: with a value, or by throwing. */
  datatype Answer<T> = Resolved(value: T) | Rejected

  /** How the group-management service answers each kind of call during one invocation.
      No command makes the same kind of call twice, so one answer per kind suffices. */
  datatype Gateway = Gateway(
    userId: Answer<int>,                 // getIdFromUsername(username)
    roles: Answer<seq<RankDescriptor>>,  // getRoles(groupId)
    groupName: Answer<string>,           // getGroup(groupId), its name
    promoted: Answer<RankDescriptor>,    // promote(groupId, userId), its newRole
    demoted: Answer<RankDescriptor>,     // demote(groupId, userId), its newRole
    exiled: Answer<()>,                  // exile(groupId, userId)
    rankSet: Answer<()>)                 // setRank(groupId, userId, rank)

  /** A call into the group-management service. */
  datatype Call =
    | GetIdFromUsername(username: string)
    | GetRoles
    | GetGroup
    | PromoteUser(userId: int)
    | DemoteUser(userId: int)
    | ExileUser(userId: int)
    | SetUserRank(userId: int, rank: int)

  /** The calls that change the group's roster. */
  predicate IsMutation(c: Call)
  {
    c.PromoteUser? || c.DemoteUser? || c.ExileUser? || c.SetUserRank?
  }

  /** What a reply shows: a plain `content` text, or an embed's description lines. */
  datatype Body = Content(text: string) | Embed(lines: seq<string>)

  /** A call on the interaction: `deferReply()`, `editReply(...)`, or `reply(...)`. */
  datatype Response = DeferReply | EditReply(body: Body) | Reply(body: Body, ephemeral: bool)

  /** One observable step of the handler, in the order it happens. */
  datatype Effect = Invoke(call: Call) | Respond(response: Response) | Write(entry: Entry)

  /** The inbound interaction: whether it is a command, its name and its options
      (`None` where `getString`/`getInteger` give `null`). */
  datatype Event = Event(
    isCommand: bool,
    commandName: string,
    username: Option<string>,
    rankName: Option<string>,
    rankNumber: Option<int>)

  /** How the `try` block ends: by returning, or by throwing after the effects so far. */
  datatype Attempt = Finished(trace: seq<Effect>) | Threw(trace: seq<Effect>)

  /** `if (!username)`: a missing option and the empty string are both falsy. */
  predicate Given(username: Option<string>)
  {
    username.Some? && username.value != ""
  }

  /** `username || ""`, as the catch reply prints it. */
  function UserText(ev: Event): string
  {
    if Given(ev.username) then ev.username.value else ""
  }

  function MissingUsername(): Response
  {
    Reply(Content("Please provide a username."), true)
  }

  function NoMatchingRank(): Response
  {
    Reply(Content("Could not find a matching rank."), true)
  }

  /** The single reply of the `catch` block. */
  function FailureReply(ev: Event): Response
  {
    Reply(Embed([FailureLine(ev.commandName, UserText(ev))]), true)
  }

  /** The description of the catch block's embed. */
  function FailureLine(commandName: string, user: string): string
  {
    "Could not " + commandName + " **" + user + "**."
  }

  function PromotedLine(u: string, role: RankDescriptor): string
  {
    "**" + u + "** has been promoted to **" + role.name + "**."
  }

  function DemotedLine(u: string, role: RankDescriptor): string
  {
    "**" + u + "** has been demoted to **" + role.name + "**."
  }

  function KickedLine(u: string, group: string): string
  {
    "Kicked **" + u + "** from the **" + group + "** group."
  }

  function SetRankLine(u: string, target: RankDescriptor): string
  {
    "**" + u + "** has been set to **" + target.name + "** (Rank: " + Text.IntToString(target.rank) + ")."
  }

  function NoHistoryText(u: string): string
  {
    "No recent actions found for **" + u + "**."
  }

  function Announce(line: string): Response
  {
    Reply(Embed([line]), false)
  }

  /** The branches of the handler, one per registered command. */
  datatype Command =
    | RankInfoCmd | PromoteCmd | DemoteCmd | KickCmd | SetRankCmd | RankHistoryCmd | AuditLogCmd
    | Unhandled

  /** The chain of `if (commandName === ...)` tests: the first branch whose name matches;
      any other name matches none. */
  function Route(commandName: string): (r: Command)
    ensures r == Unhandled <==>
              commandName !in {"rankinfo", "promote", "demote", "kick", "setrank", "rankhistory", "auditlog"}
  {
    if commandName == "rankinfo" then RankInfoCmd
    else if commandName == "promote" then PromoteCmd
    else if commandName == "demote" then DemoteCmd
    else if commandName == "kick" then KickCmd
    else if commandName == "setrank" then SetRankCmd
    else if commandName == "rankhistory" then RankHistoryCmd
    else if commandName == "auditlog" then AuditLogCmd
    else Unhandled
  }

  /** The body of the `try` block: the branch the command name selects. */
  function Try(ev: Event, gw: Gateway, now: int, log: seq<Entry>): Attempt
  {
    Run(Route(ev.commandName), ev, gw, now, log)
  }

  /** One branch of the `try` block. */
  function Run(cmd: Command, ev: Event, gw: Gateway, now: int, log: seq<Entry>): Attempt
  {
    match cmd
    case RankInfoCmd => TryRankInfo(gw)
    case PromoteCmd => TryPromote(ev, gw, now)
    case DemoteCmd => TryDemote(ev, gw, now)
    case KickCmd => TryKick(ev, gw, now)
    case SetRankCmd => TrySetRank(ev, gw, now)
    case RankHistoryCmd => Finished(RankHistoryReply(ev, log))
    case AuditLogCmd => Finished(AuditLogReply(log))
    case Unhandled => Finished([])
  }

  function TryRankInfo(gw: Gateway): Attempt
  {
    match gw.roles
    case Rejected => Threw([Respond(DeferReply), Invoke(GetRoles)])
    case Resolved(ranks) =>
      Finished([Respond(DeferReply), Invoke(GetRoles), Respond(EditReply(Embed(RankListing(ranks))))])
  }

  function TryPromote(ev: Event, gw: Gateway, now: int): Attempt
  {
    if !Given(ev.username) then Finished([Respond(MissingUsername())])
    else
      var u := ev.username.value;
      match gw.userId
      case Rejected => Threw([Invoke(GetIdFromUsername(u))])
      case Resolved(id) =>
        match gw.promoted
        case Rejected => Threw([Invoke(GetIdFromUsername(u)), Invoke(PromoteUser(id))])
        case Resolved(role) =>
          Finished([Invoke(GetIdFromUsername(u)), Invoke(PromoteUser(id)),
                    Write(Entry(u, Promoted, Some(role), now)),
                    Respond(Announce(PromotedLine(u, role)))])
  }

  function TryDemote(ev: Event, gw: Gateway, now: int): Attempt
  {
    if !Given(ev.username) then Finished([Respond(MissingUsername())])
    else
      var u := ev.username.value;
      match gw.userId
      case Rejected => Threw([Invoke(GetIdFromUsername(u))])
      case Resolved(id) =>
        match gw.demoted
        case Rejected => Threw([Invoke(GetIdFromUsername(u)), Invoke(DemoteUser(id))])
        case Resolved(role) =>
          Finished([Invoke(GetIdFromUsername(u)), Invoke(DemoteUser(id)),
                    Write(Entry(u, Demoted, Some(role), now)),
                    Respond(Announce(DemotedLine(u, role)))])
  }

  function TryKick(ev: Event, gw: Gateway, now: int): Attempt
  {
    if !Given(ev.username) then Finished([Respond(MissingUsername())])
    else
      var u := ev.username.value;
      match gw.userId
      case Rejected => Threw([Invoke(GetIdFromUsername(u))])
      case Resolved(id) =>
        match gw.groupName
        case Rejected => Threw([Invoke(GetIdFromUsername(u)), Invoke(GetGroup)])
        case Resolved(group) =>
          match gw.exiled
          case Rejected => Threw([Invoke(GetIdFromUsername(u)), Invoke(GetGroup), Invoke(ExileUser(id))])
          case Resolved(_) =>
            Finished([Invoke(GetIdFromUsername(u)), Invoke(GetGroup), Invoke(ExileUser(id)),
                      Write(Entry(u, Kicked, None, now)),
                      Respond(Announce(KickedLine(u, group)))])
  }

  function TrySetRank(ev: Event, gw: Gateway, now: int): Attempt
  {
    if !Given(ev.username) then Finished([Respond(MissingUsername())])
    else
      var u := ev.username.value;
      match gw.userId
      case Rejected => Threw([Invoke(GetIdFromUsername(u))])
      case Resolved(id) =>
        match gw.roles
        case Rejected => Threw([Invoke(GetIdFromUsername(u)), Invoke(GetRoles)])
        case Resolved(ranks) =>
          match Resolve(ranks, ev.rankNumber, ev.rankName)
          case None => Finished([Invoke(GetIdFromUsername(u)), Invoke(GetRoles), Respond(NoMatchingRank())])
          case Some(target) =>
            match gw.rankSet
            case Rejected =>
              Threw([Invoke(GetIdFromUsername(u)), Invoke(GetRoles), Invoke(SetUserRank(id, target.rank))])
            case Resolved(_) =>
              Finished([Invoke(GetIdFromUsername(u)), Invoke(GetRoles), Invoke(SetUserRank(id, target.rank)),
                        Write(Entry(u, SetRank, Some(target), now)),
                        Respond(Announce(SetRankLine(u, target)))])
  }

  function RankHistoryReply(ev: Event, log: seq<Entry>): seq<Effect>
  {
    if !Given(ev.username) then [Respond(MissingUsername())]
    else
      var u := ev.username.value;
      var history := HistoryFor(log, u, PageSize);
      if history == [] then [Respond(Reply(Content(NoHistoryText(u)), true))]
      else [Respond(Reply(Embed(HistoryLines(history)), false))]
  }

  function AuditLogReply(log: seq<Entry>): seq<Effect>
  {
    var history := Latest(log, PageSize);
    if history == [] then [Respond(Reply(Content("No recent actions found."), true))]
    else [Respond(Reply(Embed(AuditLines(history)), false))]
  }

  /** The whole handler: a non-command interaction is ignored; otherwise the `try` block
      runs, and a throw is turned into the catch reply. */
  function Dispatch(ev: Event, gw: Gateway, now: int, log: seq<Entry>): seq<Effect>
  {
    if !ev.isCommand then []
    else match Try(ev, gw, now, log)
      case Finished(t) => t
      case Threw(t) => t + [Respond(FailureReply(ev))]
  }

  /** The handler with its catch block corrected: once the reply has been deferred, the
      failure message edits that reply instead of replying a second time. Everywhere else it
      is `Dispatch`. */
  function DispatchFixed(ev: Event, gw: Gateway, now: int, log: seq<Entry>): seq<Effect>
  {
    if !ev.isCommand then []
    else match Try(ev, gw, now, log)
      case Finished(t) => t
      case Threw(t) => t + [Respond(CatchResponse(ev, t))]
  }

  /** The catch block's answer after the effects `t` of the `try` block. */
  function CatchResponse(ev: Event, t: seq<Effect>): Response
  {
    if Respond(DeferReply) in t then EditReply(FailureReply(ev).body) else FailureReply(ev)
  }

  /** The entries a trace writes to the log, in order. */
  function Written(t: seq<Effect>): seq<Entry>
    decreases |t|
  {
    if t == [] then []
    else Written(t[..|t| - 1]) + (if t[|t| - 1].Write? then [t[|t| - 1].entry] else [])
  }

  lemma WrittenSnoc(t: seq<Effect>, x: Effect)
    ensures Written(t + [x]) == Written(t) + (if x.Write? then [x.entry] else [])
  {
    assert (t + [x])[..|t|] == t;
  }

  lemma WrittenNone(t: seq<Effect>)
    requires forall i :: 0 <= i < |t| ==> !t[i].Write?
    ensures Written(t) == []
    decreases |t|
  {
    if t != [] {
      WrittenNone(t[..|t| - 1]);
    }
  }

  /** Step-by-step writes: a prefix without writes, then one write and its reply. */
  lemma WrittenOnce(prefix: seq<Effect>, e: Entry, reply: Response)
    requires forall i :: 0 <= i < |prefix| ==> !prefix[i].Write?
    ensures Written(prefix + [Write(e), Respond(reply)]) == [e]
  {
    WrittenNone(prefix);
    WrittenSnoc(prefix, Write(e));
    assert prefix + [Write(e), Respond(reply)] == (prefix + [Write(e)]) + [Respond(reply)];
    WrittenSnoc(prefix + [Write(e)], Respond(reply));
  }

  /** The `try` block: the branch whose name matches the command runs; an unknown name
      runs none and leaves the log alone. */
  method TryCommand(ev: Event, gw: Gateway, now: int, log: ActionLog) returns (trace: seq<Effect>, threw: bool)
    requires log.Valid()
    modifies log
    ensures log.Valid()
    ensures trace == Try(ev, gw, now, old(log.entries)).trace
    ensures threw == Try(ev, gw, now, old(log.entries)).Threw?
    ensures log.entries == RecordAll(old(log.entries), Written(trace))
  {
    match Route(ev.commandName)
    case RankInfoCmd =>
      trace, threw := RankInfo(gw);
    case PromoteCmd =>
      trace, threw := Promote(ev, gw, now, log);
    case DemoteCmd =>
      trace, threw := Demote(ev, gw, now, log);
    case KickCmd =>
      trace, threw := Kick(ev, gw, now, log);
    case SetRankCmd =>
      trace, threw := SetRankCommand(ev, gw, now, log);
    case RankHistoryCmd =>
      trace := RankHistory(ev, log.entries);
      threw := false;
    case AuditLogCmd =>
      trace := AuditLog(log.entries);
      threw := false;
    case Unhandled =>
      trace, threw := [], false;
  }

  /** `/rankinfo`: defer the reply, fetch the catalog, edit the reply with the sorted list. */
  method RankInfo(gw: Gateway) returns (trace: seq<Effect>, threw: bool)
    ensures trace == TryRankInfo(gw).trace
    ensures threw == TryRankInfo(gw).Threw?
    ensures Written(trace) == []
  {
    trace, threw := [Respond(DeferReply), Invoke(GetRoles)], false;
    WrittenNone(trace);
    if gw.roles.Rejected? {
      threw := true;
      return;
    }
    var listing := RankListing(gw.roles.value);
    WrittenSnoc(trace, Respond(EditReply(Embed(listing))));
    trace := trace + [Respond(EditReply(Embed(listing)))];
  }

  /** `/promote`: look the user up, promote them, log the new role, announce it. */
  method Promote(ev: Event, gw: Gateway, now: int, log: ActionLog) returns (trace: seq<Effect>, threw: bool)
    requires log.Valid()
    modifies log
    ensures log.Valid()
    ensures trace == TryPromote(ev, gw, now).trace
    ensures threw == TryPromote(ev, gw, now).Threw?
    ensures log.entries == RecordAll(old(log.entries), Written(trace))
  {
    if !Given(ev.username) {
      trace, threw := [Respond(MissingUsername())], false;
      WrittenNone(trace);
      return;
    }
    var u := ev.username.value;
    trace, threw := [Invoke(GetIdFromUsername(u))], gw.userId.Rejected?;
    if threw {
      WrittenNone(trace);
      return;
    }
    var id := gw.userId.value;
    trace, threw := trace + [Invoke(PromoteUser(id))], gw.promoted.Rejected?;
    if threw {
      WrittenNone(trace);
      return;
    }
    var role := gw.promoted.value;
    var e := Entry(u, Promoted, Some(role), now);
    RecordOne(log.entries, e);
    log.Record(e);
    var reply := Announce(PromotedLine(u, role));
    WrittenOnce(trace, e, reply);
    trace := trace + [Write(e), Respond(reply)];
  }

  /** `/demote`: look the user up, demote them, log the new role, announce it. */
  method Demote(ev: Event, gw: Gateway, now: int, log: ActionLog) returns (trace: seq<Effect>, threw: bool)
    requires log.Valid()
    modifies log
    ensures log.Valid()
    ensures trace == TryDemote(ev, gw, now).trace
    ensures threw == TryDemote(ev, gw, now).Threw?
    ensures log.entries == RecordAll(old(log.entries), Written(trace))
  {
    if !Given(ev.username) {
      trace, threw := [Respond(MissingUsername())], false;
      WrittenNone(trace);
      return;
    }
    var u := ev.username.value;
    trace, threw := [Invoke(GetIdFromUsername(u))], gw.userId.Rejected?;
    if threw {
      WrittenNone(trace);
      return;
    }
    var id := gw.userId.value;
    trace, threw := trace + [Invoke(DemoteUser(id))], gw.demoted.Rejected?;
    if threw {
      WrittenNone(trace);
      return;
    }
    var role := gw.demoted.value;
    var e := Entry(u, Demoted, Some(role), now);
    RecordOne(log.entries, e);
    log.Record(e);
    var reply := Announce(DemotedLine(u, role));
    WrittenOnce(trace, e, reply);
    trace := trace + [Write(e), Respond(reply)];
  }

  /** `/kick`: look the user up, fetch the group, exile the user, log it, announce it. */
  method Kick(ev: Event, gw: Gateway, now: int, log: ActionLog) returns (trace: seq<Effect>, threw: bool)
    requires log.Valid()
    modifies log
    ensures log.Valid()
    ensures trace == TryKick(ev, gw, now).trace
    ensures threw == TryKick(ev, gw, now).Threw?
    ensures log.entries == RecordAll(old(log.entries), Written(trace))
  {
    if !Given(ev.username) {
      trace, threw := [Respond(MissingUsername())], false;
      WrittenNone(trace);
      return;
    }
    var u := ev.username.value;
    trace, threw := [Invoke(GetIdFromUsername(u))], gw.userId.Rejected?;
    if threw {
      WrittenNone(trace);
      return;
    }
    var id := gw.userId.value;
    trace, threw := trace + [Invoke(GetGroup)], gw.groupName.Rejected?;
    if threw {
      WrittenNone(trace);
      return;
    }
    var group := gw.groupName.value;
    trace, threw := trace + [Invoke(ExileUser(id))], gw.exiled.Rejected?;
    if threw {
      WrittenNone(trace);
      return;
    }
    var e := Entry(u, Kicked, None, now);
    RecordOne(log.entries, e);
    log.Record(e);
    var reply := Announce(KickedLine(u, group));
    WrittenOnce(trace, e, reply);
    trace := trace + [Write(e), Respond(reply)];
  }

  /** `/setrank`: look the user up, fetch the catalog, resolve the target rank, set it, log
      the resolved descriptor, announce it. */
  method SetRankCommand(ev: Event, gw: Gateway, now: int, log: ActionLog) returns (trace: seq<Effect>, threw: bool)
    requires log.Valid()
    modifies log
    ensures log.Valid()
    ensures trace == TrySetRank(ev, gw, now).trace
    ensures threw == TrySetRank(ev, gw, now).Threw?
    ensures log.entries == RecordAll(old(log.entries), Written(trace))
  {
    if !Given(ev.username) {
      trace, threw := [Respond(MissingUsername())], false;
      WrittenNone(trace);
      return;
    }
    var u := ev.username.value;
    trace, threw := [Invoke(GetIdFromUsername(u))], gw.userId.Rejected?;
    if threw {
      WrittenNone(trace);
      return;
    }
    var id := gw.userId.value;
    trace, threw := trace + [Invoke(GetRoles)], gw.roles.Rejected?;
    if threw {
      WrittenNone(trace);
      return;
    }
    var target := Resolve(gw.roles.value, ev.rankNumber, ev.rankName);
    if target.None? {
      trace := trace + [Respond(NoMatchingRank())];
      WrittenNone(trace);
      return;
    }
    var rank := target.value;
    trace, threw := trace + [Invoke(SetUserRank(id, rank.rank))], gw.rankSet.Rejected?;
    if threw {
      WrittenNone(trace);
      return;
    }
    var e := Entry(u, SetRank, Some(rank), now);
    RecordOne(log.entries, e);
    log.Record(e);
    var reply := Announce(SetRankLine(u, rank));
    WrittenOnce(trace, e, reply);
    trace := trace + [Write(e), Respond(reply)];
  }

  /** `/rankhistory`: the user's latest entries, or an ephemeral notice when there are none. */
  method RankHistory(ev: Event, log: seq<Entry>) returns (trace: seq<Effect>)
    ensures trace == RankHistoryReply(ev, log)
    ensures Written(trace) == []
  {
    if !Given(ev.username) {
      trace := [Respond(MissingUsername())];
    } else {
      var u := ev.username.value;
      var history := HistoryFor(log, u, PageSize);
      if history == [] {
        trace := [Respond(Reply(Content(NoHistoryText(u)), true))];
      } else {
        trace := [Respond(Reply(Embed(HistoryLines(history)), false))];
      }
    }
    WrittenNone(trace);
  }

  /** `/auditlog`: the latest entries, or an ephemeral notice when the log is empty. */
  method AuditLog(log: seq<Entry>) returns (trace: seq<Effect>)
    ensures trace == AuditLogReply(log)
    ensures Written(trace) == []
  {
    var history := Latest(log, PageSize);
    if history == [] {
      trace := [Respond(Reply(Content("No recent actions found."), true))];
    } else {
      trace := [Respond(Reply(Embed(AuditLines(history)), false))];
    }
    WrittenNone(trace);
  }

  /** The `interactionCreate` listener, with the corrected catch block: the log ends up as if
      every entry the trace writes had been recorded, in order. */
  method Handle(ev: Event, gw: Gateway, now: int, log: ActionLog) returns (trace: seq<Effect>)
    requires log.Valid()
    modifies log
    ensures log.Valid()
    ensures trace == DispatchFixed(ev, gw, now, old(log.entries))
    ensures log.entries == RecordAll(old(log.entries), Written(trace))
  {
    trace := [];
    if !ev.isCommand {
      assert Written(trace) == [];
      return;
    }
    var threw;
    trace, threw := TryCommand(ev, gw, now, log);
    if threw {
      var answer := CatchResponse(ev, trace);
      WrittenSnoc(trace, Respond(answer));
      assert Written(trace) + [] == Written(trace);
      trace := trace + [Respond(answer)];
    }
  }
}
