/** `process_messages` and `main`: one pass over every configured account. */
module Orchestrator {
  import opened Outcomes
  import opened Registry
  import opened Text
  import opened Subject
  import opened Body
  import opened Selection
  import opened Mailbox

  /** A task as mailed to the task inbox: its title and an optional note. */
  datatype Task = Task(subject: string, body: Option<string>)

  /** How one account's pass ended. */
  datatype Outcome = Done | Failed(error: Error)

  /** The task for one fetched message whose snapshot flags are `flags`. The subject is read
      first: a message without one fails before its body is looked at. */
  function MakeTask(msg: Message, flags: set<Flag>, prefix: Option<string>, removeTags: string -> Option<string>)
    : (r: Result<Task>)
    ensures msg.subject.None? ==> r == Err(MissingSubject)
    ensures msg.subject.Some? ==> (r.Ok? <==> MessageBody(msg.content, removeTags).Ok?)
    ensures msg.subject.Some? && r.Err? ==> r.error == MessageBody(msg.content, removeTags).error
    ensures r.Ok? ==> EndsWith(r.value.subject, MailTag) && StartsWith(r.value.subject, Heading(prefix))
    ensures r.Ok? ==> r.value.body == MessageBody(msg.content, removeTags).value
  {
    match msg.subject
    case None => Err(MissingSubject)
    case Some(subject) =>
      TitleFrame(subject, flags, prefix);
      var title := PrepareSubject(subject, flags, prefix);
      match MessageBody(msg.content, removeTags)
      case Err(e) => Err(e)
      case Ok(body) => Ok(Task(title, body))
  }

  /** The task results for the fetched messages, in fetch order. */
  function Tasks(fetched: seq<(Id, Message)>, snapshot: seq<Entry>, prefix: Option<string>,
                 removeTags: string -> Option<string>): (r: seq<Result<Task>>)
    requires forall i :: 0 <= i < |fetched| ==> fetched[i].0 in Keys(snapshot)
    ensures |r| == |fetched|
  {
    if fetched == [] then []
    else
      var last := fetched[|fetched| - 1];
      Tasks(fetched[..|fetched| - 1], snapshot, prefix, removeTags)
      + [MakeTask(last.1, FlagsOf(snapshot, last.0), prefix, removeTags)]
  }

  /** Each fetched message yields its own task, in fetch order. */
  lemma {:induction false} TasksAt(fetched: seq<(Id, Message)>, snapshot: seq<Entry>, prefix: Option<string>,
                                   removeTags: string -> Option<string>, i: nat)
    requires forall i :: 0 <= i < |fetched| ==> fetched[i].0 in Keys(snapshot)
    requires i < |fetched|
    ensures Tasks(fetched, snapshot, prefix, removeTags)[i]
            == MakeTask(fetched[i].1, FlagsOf(snapshot, fetched[i].0), prefix, removeTags)
  {
    var prefixPart := fetched[..|fetched| - 1];
    if i < |fetched| - 1 {
      assert fetched[i] == prefixPart[i];
      TasksAt(prefixPart, snapshot, prefix, removeTags, i);
    }
  }

  /** Where the pass stops when it has reached task `i`: at the first task from `i` on that cannot be
      built or whose send the task inbox refuses (sends are numbered from `start`), or at the end. */
  function StopFrom(tasks: seq<Result<Task>>, start: nat, refused: set<nat>, i: nat): (n: nat)
    requires i <= |tasks|
    ensures i <= n <= |tasks|
    ensures forall j :: i <= j < n ==> tasks[j].Ok? && start + j !in refused
    ensures n < |tasks| ==> tasks[n].Err? || start + n in refused
    decreases |tasks| - i
  {
    if i == |tasks| || tasks[i].Err? || start + i in refused then i
    else
      var n := StopFrom(tasks, start, refused, i + 1);
      assert tasks[i].Ok? && start + i !in refused;
      n
  }

  /** The number of tasks sent before the pass stops. */
  function FirstFailure(tasks: seq<Result<Task>>, start: nat, refused: set<nat>): nat {
    StopFrom(tasks, start, refused, 0)
  }

  /** The tasks of a prefix of built results. */
  function Values(tasks: seq<Result<Task>>): (r: seq<Task>)
    requires forall j :: 0 <= j < |tasks| ==> tasks[j].Ok?
    ensures |r| == |tasks| && forall j :: 0 <= j < |r| ==> r[j] == tasks[j].value
  {
    if tasks == [] then [] else Values(tasks[..|tasks| - 1]) + [tasks[|tasks| - 1].value]
  }

  /** The relabelling requests a successful pass sends to a server whose flag table is `flags`
      and whose week's search result is `recent`. */
  function RunCalls(flags: map<Id, set<Flag>>, recent: seq<Id>): seq<FlagCall> {
    var snapshot := Snapshot(flags, recent);
    MarkCalls(Selected(snapshot), snapshot)
  }

  /** The task results of a pass over a server whose flag table is `flags`, whose week's search
      result is `recent` and whose messages are `store`: one per downloaded selected message. */
  function PassTasks(flags: map<Id, set<Flag>>, recent: seq<Id>, store: map<Id, Message>,
                     prefix: Option<string>, removeTags: string -> Option<string>): seq<Result<Task>>
  {
    var snapshot := Snapshot(flags, recent);
    Tasks(Fetched(store, Selected(snapshot)), snapshot, prefix, removeTags)
  }

  /** The remote task inbox reached by SMTP. Which send attempts fail is fixed by the environment
      (`refused` holds their numbers, counting from zero). */
  class TaskInbox {
    var delivered: seq<Task>
    var attempts: nat
    const refused: set<nat>

    constructor (refused: set<nat>)
      ensures delivered == [] && attempts == 0 && this.refused == refused
    {
      delivered := [];
      attempts := 0;
      this.refused := refused;
    }

    /** `send_task_to_rtm(subject, body, account)`: one attempt, delivered unless refused. */
    method Send(t: Task) returns (ok: bool)
      modifies this`delivered, this`attempts
      ensures attempts == old(attempts) + 1
      ensures ok <==> old(attempts) !in refused
      ensures delivered == if ok then old(delivered) + [t] else old(delivered)
    {
      ok := attempts !in refused;
      if ok {
        delivered := delivered + [t];
      }
      attempts := attempts + 1;
    }
  }

  /** How a pass that stopped after `n` sends ended. */
  function PassOutcome(tasks: seq<Result<Task>>, n: nat): Outcome
    requires n <= |tasks|
  {
    if n == |tasks| then Done else if tasks[n].Err? then Failed(tasks[n].error) else Failed(SendFailed)
  }

  /** The sending loop of `process_messages`: the tasks in order, each sent once it has been
      built, until one cannot be built or a send is refused. */
  method SendTasks(inbox: TaskInbox, tasks: seq<Result<Task>>) returns (outcome: Outcome)
    modifies inbox`delivered, inbox`attempts
    ensures var n := FirstFailure(tasks, old(inbox.attempts), inbox.refused);
      && inbox.delivered == old(inbox.delivered) + Values(tasks[..n])
      && inbox.attempts == old(inbox.attempts) + (if n < |tasks| && tasks[n].Ok? then n + 1 else n)
      && outcome == PassOutcome(tasks, n)
  {
    ghost var n := FirstFailure(tasks, old(inbox.attempts), inbox.refused);
    var i := 0;
    assert tasks[..0] == [];
    while i < |tasks|
      invariant 0 <= i <= |tasks| && i <= n
      invariant inbox.delivered == old(inbox.delivered) + Values(tasks[..i])
      invariant inbox.attempts == old(inbox.attempts) + i
    {
      var task := tasks[i];
      if task.Err? {
        assert i == n;
        return Failed(task.error);
      }
      var ok := inbox.Send(task.value);
      if !ok {
        assert i == n;
        return Failed(SendFailed);
      }
      assert tasks[..i + 1] == tasks[..i] + [tasks[i]];
      i := i + 1;
    }
    assert tasks[..i] == tasks;
    outcome := Done;
  }

  /** `process_messages`: snapshot the flags of the week's messages, fetch only the selected ones,
      send one task per fetched message and relabel the selected messages once every send has
      gone through. Any failure ends the pass at that message, with no flag changed. */
  method ProcessMessages(server: ImapServer, inbox: TaskInbox, prefix: Option<string>,
                         removeTags: string -> Option<string>) returns (outcome: Outcome)
    requires server.Valid()
    modifies server`flags, server`trace, server`fetchRequests, inbox`delivered, inbox`attempts
    ensures server.Valid()
    ensures var snapshot := Snapshot(old(server.flags), server.recent);
      var selected := Selected(snapshot);
      var fetched := Fetched(server.store, selected);
      && server.fetchRequests == old(server.fetchRequests) + [selected]
      && (forall i :: 0 <= i < |fetched| ==> fetched[i].0 in Keys(snapshot))
      && var tasks := Tasks(fetched, snapshot, prefix, removeTags);
      var n := FirstFailure(tasks, old(inbox.attempts), inbox.refused);
      && inbox.delivered == old(inbox.delivered) + Values(tasks[..n])
      && inbox.attempts == old(inbox.attempts) + (if n < |tasks| && tasks[n].Ok? then n + 1 else n)
      && outcome == PassOutcome(tasks, n)
    ensures outcome.Done? ==> server.trace == old(server.trace) + RunCalls(old(server.flags), server.recent)
    ensures outcome.Failed? ==> server.trace == old(server.trace)
    ensures server.flags == ApplyAll(old(server.flags), server.trace[|old(server.trace)|..])
  {
    var messages := server.Search();
    var messagesWithFlags := server.GetFlags(messages);
    var messagesToProcess := FilterMessagesToProcess(messagesWithFlags);
    var fetched := server.Fetch(messagesToProcess);
    var tasks := Tasks(fetched, messagesWithFlags, prefix, removeTags);
    outcome := SendTasks(inbox, tasks);
    if outcome.Done? {
      MarkAsProcessed(server, messagesToProcess, messagesWithFlags);
    }
    ApplyAllAppend(server.initial, old(server.trace), server.trace[|old(server.trace)|..]);
    assert old(server.trace) + server.trace[|old(server.trace)|..] == server.trace;
  }

  /** A configured account: its name, its server and its optional subject prefix. */
  datatype Account = Account(name: string, server: ImapServer, prefix: Option<string>)

  /** What a pass over one account logged. */
  datatype Report = Report(name: string, outcome: Outcome)

  /** What `main` leaves behind for one account whose server started with flag table `flags0`,
      request log `trace0` and fetch log `fetches0`, while the task inbox went from `delivered0`
      after `start` attempts to `delivered` after `attempts`. The report carries the account's
      name. An unreachable server fails to connect; it is not read and nothing is sent. A reachable
      one gets a full pass: the selection is downloaded, the tasks are sent up to the first failure
      and the report gives the pass's outcome. A failed pass changes no flag; a successful one sends
      exactly the relabelling requests of that pass. */
  ghost predicate Reported(report: Report, account: Account, removeTags: string -> Option<string>,
                           flags0: map<Id, set<Flag>>, trace0: seq<FlagCall>, fetches0: seq<seq<Id>>,
                           refused: set<nat>, start: nat, attempts: nat,
                           delivered0: seq<Task>, delivered: seq<Task>)
    reads account.server
  {
    var server := account.server;
    && server.Valid()
    && report.name == account.name
    && (!server.reachable ==>
          && report.outcome == Failed(ConnectionFailed)
          && server.fetchRequests == fetches0
          && attempts == start && delivered == delivered0)
    && (server.reachable ==>
          var tasks := PassTasks(flags0, server.recent, server.store, account.prefix, removeTags);
          var n := FirstFailure(tasks, start, refused);
          && server.fetchRequests == fetches0 + [Selected(Snapshot(flags0, server.recent))]
          && delivered == delivered0 + Values(tasks[..n])
          && attempts == start + (if n < |tasks| && tasks[n].Ok? then n + 1 else n)
          && report.outcome == PassOutcome(tasks, n))
    && (report.outcome.Failed? ==> server.flags == flags0 && server.trace == trace0)
    && (report.outcome.Done? ==>
          server.trace == trace0 + RunCalls(flags0, server.recent)
          && server.flags == ApplyAll(flags0, RunCalls(flags0, server.recent)))
  }

  /** The body of `main`'s loop for one account: connect, process, and report any failure. */
  method RunAccount(account: Account, inbox: TaskInbox, removeTags: string -> Option<string>)
    returns (report: Report)
    requires account.server.Valid()
    modifies account.server, inbox
    ensures Reported(report, account, removeTags, old(account.server.flags), old(account.server.trace),
                     old(account.server.fetchRequests), inbox.refused,
                     old(inbox.attempts), inbox.attempts, old(inbox.delivered), inbox.delivered)
  {
    var outcome;
    if !account.server.reachable {
      outcome := Failed(ConnectionFailed);
    } else {
      outcome := ProcessMessages(account.server, inbox, account.prefix, removeTags);
    }
    report := Report(account.name, outcome);
  }

  /** `main`: every account in configuration order; an account whose server cannot be reached, or
      whose pass fails, is reported and the next account is still processed. `starts[i]` and
      `sent[i]` are the inbox's attempt count and delivered tasks when account `i` begins, and
      their last entries are those at the end. */
  method RunAccounts(accounts: seq<Account>, inbox: TaskInbox, removeTags: string -> Option<string>)
    returns (log: seq<Report>, ghost starts: seq<nat>, ghost sent: seq<seq<Task>>)
    requires forall i :: 0 <= i < |accounts| ==> accounts[i].server.Valid()
    requires forall i, j :: 0 <= i < j < |accounts| ==> accounts[i].server != accounts[j].server
    modifies set i | 0 <= i < |accounts| :: accounts[i].server, inbox
    ensures |log| == |accounts| && |starts| == |accounts| + 1 && |sent| == |accounts| + 1
    ensures starts[0] == old(inbox.attempts) && starts[|accounts|] == inbox.attempts
    ensures sent[0] == old(inbox.delivered) && sent[|accounts|] == inbox.delivered
    ensures forall i :: 0 <= i < |accounts| ==>
      Reported(log[i], accounts[i], removeTags, old(accounts[i].server.flags),
               old(accounts[i].server.trace), old(accounts[i].server.fetchRequests), inbox.refused,
               starts[i], starts[i + 1], sent[i], sent[i + 1])
  {
    log := [];
    starts := [inbox.attempts];
    sent := [inbox.delivered];
    var i := 0;
    while i < |accounts|
      invariant 0 <= i <= |accounts| && |log| == i && |starts| == i + 1 && |sent| == i + 1
      invariant starts[0] == old(inbox.attempts) && starts[i] == inbox.attempts
      invariant sent[0] == old(inbox.delivered) && sent[i] == inbox.delivered
      invariant forall j :: i <= j < |accounts| ==>
        var server := accounts[j].server;
        && server.Valid()
        && server.flags == old(server.flags) && server.trace == old(server.trace)
        && server.fetchRequests == old(server.fetchRequests)
      invariant forall j :: 0 <= j < i ==>
        Reported(log[j], accounts[j], removeTags, old(accounts[j].server.flags),
                 old(accounts[j].server.trace), old(accounts[j].server.fetchRequests), inbox.refused,
                 starts[j], starts[j + 1], sent[j], sent[j + 1])
    {
      var report := RunAccount(accounts[i], inbox, removeTags);
      log := log + [report];
      starts := starts + [inbox.attempts];
      sent := sent + [inbox.delivered];
      i := i + 1;
    }
  }

  /** After a successful pass, no message of the week's search carries a trigger. */
  lemma QuietAfterPass(flags: map<Id, set<Flag>>, recent: seq<Id>, x: Id)
    requires x in flags && x in recent
    ensures x in ApplyAll(flags, RunCalls(flags, recent))
    ensures !Triggers(ApplyAll(flags, RunCalls(flags, recent))[x])
  {
    var snapshot := Snapshot(flags, recent);
    var selected := Selected(snapshot);
    MarkedState(flags, selected, snapshot);
    if x !in selected {
      SelectedMembership(snapshot, x);
      var row :| 0 <= row < |snapshot| && snapshot[row].id == x && snapshot[row].flags == FlagsOf(snapshot, x);
      assert !Triggers(flags[x]);
    }
  }

  /** A second pass right after a successful one, over the same week's messages, selects nothing:
      every message the first pass selected lost its triggers, and every other one kept flags that
      never triggered. */
  lemma SecondPassSelectsNothing(flags: map<Id, set<Flag>>, recent: seq<Id>)
    ensures Selected(Snapshot(ApplyAll(flags, RunCalls(flags, recent)), recent)) == []
  {
    var after := ApplyAll(flags, RunCalls(flags, recent));
    var again := Snapshot(after, recent);
    forall k | 0 <= k < |again|
      ensures !Triggers(again[k].flags)
    {
      QuietAfterPass(flags, recent, again[k].id);
    }
    if Selected(again) != [] {
      SelectedMembership(again, Selected(again)[0]);
    }
  }
}
