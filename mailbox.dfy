/** The mailbox as the core sees it (an IMAP server holding one folder) and `mark_as_processed`. */
module Mailbox {
  import opened Registry
  import opened Selection
  import opened Body

  /** A flag-changing request sent to the server. */
  datatype FlagCall = Add(id: Id, tokens: seq<Flag>) | Remove(id: Id, tokens: seq<Flag>)

  /** The set of tokens in a request. */
  function TokenSet(tokens: seq<Flag>): set<Flag> {
    set f | f in tokens
  }

  /** The effect of one request on the server's flag table; an id the server does not hold is ignored. */
  function Apply(st: map<Id, set<Flag>>, c: FlagCall): (r: map<Id, set<Flag>>)
    ensures r.Keys == st.Keys
  {
    if c.id !in st then st
    else match c
      case Add(id, tokens) => st[id := st[id] + TokenSet(tokens)]
      case Remove(id, tokens) => st[id := st[id] - TokenSet(tokens)]
  }

  /** The flag table after a sequence of requests. */
  function ApplyAll(st: map<Id, set<Flag>>, calls: seq<FlagCall>): (r: map<Id, set<Flag>>)
    ensures r.Keys == st.Keys
  {
    if calls == [] then st else Apply(ApplyAll(st, calls[..|calls| - 1]), calls[|calls| - 1])
  }

  lemma {:induction false} ApplyAllAppend(st: map<Id, set<Flag>>, a: seq<FlagCall>, b: seq<FlagCall>)
    ensures ApplyAll(st, a + b) == ApplyAll(ApplyAll(st, a), b)
    decreases |b|
  {
    if b == [] {
      assert a + b == a;
    } else {
      assert (a + b)[..|a + b| - 1] == a + b[..|b| - 1];
      ApplyAllAppend(st, a, b[..|b| - 1]);
    }
  }

  /** The id-to-flags table `get_flags` returns for the requested ids: ids the server does not hold
      are absent, and a repeated id keeps its first position, as in a dict. */
  function Snapshot(flags: map<Id, set<Flag>>, ids: seq<Id>): (r: seq<Entry>)
    ensures DistinctIds(r)
    ensures forall i :: 0 <= i < |r| ==> r[i].id in ids && r[i].id in flags && r[i].flags == flags[r[i].id]
    ensures forall id :: id in ids && id in flags ==> id in Keys(r)
  {
    if ids == [] then []
    else
      var prev := Snapshot(flags, ids[..|ids| - 1]);
      var id := ids[|ids| - 1];
      assert ids == ids[..|ids| - 1] + [id];
      if id in flags && id !in Keys(prev) then prev + [Entry(id, flags[id])] else prev
  }

  /** The messages `fetch` returns for the requested ids, in request order, each id once; ids the
      server does not hold are absent. */
  function Fetched(store: map<Id, Message>, ids: seq<Id>): (r: seq<(Id, Message)>)
    ensures forall i :: 0 <= i < |r| ==> r[i].0 in ids && r[i].0 in store && r[i].1 == store[r[i].0]
    ensures forall i, j :: 0 <= i < j < |r| ==> r[i].0 != r[j].0
  {
    if ids == [] then []
    else
      var prev := Fetched(store, ids[..|ids| - 1]);
      var id := ids[|ids| - 1];
      assert ids == ids[..|ids| - 1] + [id];
      if id in store && (forall i :: 0 <= i < |prev| ==> prev[i].0 != id) then prev + [(id, store[id])]
      else prev
  }

  /** One IMAP account's server with its INBOX selected. The flag table changes only through
      `AddFlags`/`RemoveFlags`, which also log the request; the search result (the messages of the
      last week) and the message contents are fixed for the length of a run. */
  class ImapServer {
    var flags: map<Id, set<Flag>>
    var trace: seq<FlagCall>
    var fetchRequests: seq<seq<Id>>
    ghost var initial: map<Id, set<Flag>>
    const recent: seq<Id>
    const store: map<Id, Message>
    const reachable: bool

    /** The flag table is always the initial one with the logged requests applied. */
    ghost predicate Valid()
      reads this
    {
      flags == ApplyAll(initial, trace)
    }

    constructor (flags: map<Id, set<Flag>>, recent: seq<Id>, store: map<Id, Message>, reachable: bool)
      ensures Valid()
      ensures this.flags == flags && trace == [] && fetchRequests == []
      ensures this.recent == recent && this.store == store && this.reachable == reachable
    {
      this.flags := flags;
      this.trace := [];
      this.fetchRequests := [];
      this.initial := flags;
      this.recent := recent;
      this.store := store;
      this.reachable := reachable;
    }

    /** `server.add_flags(id, tokens)`. */
    method AddFlags(id: Id, tokens: seq<Flag>)
      requires Valid()
      modifies this`flags, this`trace
      ensures Valid()
      ensures trace == old(trace) + [Add(id, tokens)]
      ensures flags == Apply(old(flags), Add(id, tokens))
    {
      ApplyAllAppend(initial, trace, [Add(id, tokens)]);
      ApplyAllOne(ApplyAll(initial, trace), Add(id, tokens));
      trace := trace + [Add(id, tokens)];
      flags := Apply(flags, Add(id, tokens));
    }

    /** `server.remove_flags(id, tokens)`. */
    method RemoveFlags(id: Id, tokens: seq<Flag>)
      requires Valid()
      modifies this`flags, this`trace
      ensures Valid()
      ensures trace == old(trace) + [Remove(id, tokens)]
      ensures flags == Apply(old(flags), Remove(id, tokens))
    {
      ApplyAllAppend(initial, trace, [Remove(id, tokens)]);
      ApplyAllOne(ApplyAll(initial, trace), Remove(id, tokens));
      trace := trace + [Remove(id, tokens)];
      flags := Apply(flags, Remove(id, tokens));
    }

    /** `server.search(...)` for the last week's messages. */
    method Search() returns (ids: seq<Id>)
      ensures ids == recent
    {
      ids := recent;
    }

    /** `server.get_flags(ids)`. */
    method GetFlags(ids: seq<Id>) returns (m: seq<Entry>)
      ensures m == Snapshot(flags, ids)
    {
      m := Snapshot(flags, ids);
    }

    /** `server.fetch(ids, "RFC822")` followed by MIME parsing; the request is logged. */
    method Fetch(ids: seq<Id>) returns (ms: seq<(Id, Message)>)
      modifies this`fetchRequests
      ensures fetchRequests == old(fetchRequests) + [ids]
      ensures ms == Fetched(store, ids)
    {
      fetchRequests := fetchRequests + [ids];
      ms := Fetched(store, ids);
    }
  }

  /** The requests `mark_as_processed` sends for one id whose snapshot flags are `seen`: personal
      is added first when the message was important or todo, then the three triggers are removed. */
  function StepCalls(id: Id, seen: set<Flag>): seq<FlagCall> {
    (if EarnsPersonal(seen) then [Add(id, [FlagFor(Personal)])] else [])
    + [Remove(id, FlagsToRemove())]
  }

  /** All requests `mark_as_processed` sends, in order. */
  function MarkCalls(ids: seq<Id>, snapshot: seq<Entry>): seq<FlagCall>
    requires forall id :: id in ids ==> id in Keys(snapshot)
  {
    if ids == [] then []
    else
      var id := ids[|ids| - 1];
      MarkCalls(ids[..|ids| - 1], snapshot) + StepCalls(id, FlagsOf(snapshot, id))
  }

  /** Extending the processed prefix by one id appends that id's requests. */
  lemma MarkCallsSnoc(ids: seq<Id>, i: nat, snapshot: seq<Entry>)
    requires i < |ids|
    requires forall id :: id in ids ==> id in Keys(snapshot)
    ensures forall id :: id in ids[..i] ==> id in Keys(snapshot)
    ensures MarkCalls(ids[..i + 1], snapshot)
            == MarkCalls(ids[..i], snapshot) + StepCalls(ids[i], FlagsOf(snapshot, ids[i]))
  {
    assert ids[..i + 1][..i] == ids[..i];
    assert forall id :: id in ids[..i] ==> id in ids;
  }

  lemma ApplyAllOne(st: map<Id, set<Flag>>, c: FlagCall)
    ensures ApplyAll(st, [c]) == Apply(st, c)
  {
    assert [c][..0] == [];
  }

  /** The requests for one id, applied one after the other. */
  lemma StepCallsApply(st: map<Id, set<Flag>>, id: Id, seen: set<Flag>)
    ensures ApplyAll(st, StepCalls(id, seen))
            == if EarnsPersonal(seen)
               then Apply(Apply(st, Add(id, [FlagFor(Personal)])), Remove(id, FlagsToRemove()))
               else Apply(st, Remove(id, FlagsToRemove()))
  {
    var add := Add(id, [FlagFor(Personal)]);
    var remove := Remove(id, FlagsToRemove());
    if EarnsPersonal(seen) {
      assert StepCalls(id, seen) == [add] + [remove];
      ApplyAllAppend(st, [add], [remove]);
      ApplyAllOne(st, add);
      ApplyAllOne(Apply(st, add), remove);
    } else {
      assert StepCalls(id, seen) == [remove];
      ApplyAllOne(st, remove);
    }
  }

  /** The body of the relabelling loop for one message whose snapshot flags are `seen`. */
  method MarkOne(server: ImapServer, id: Id, seen: set<Flag>)
    requires server.Valid()
    modifies server`flags, server`trace
    ensures server.Valid() && server.initial == old(server.initial)
    ensures server.trace == old(server.trace) + StepCalls(id, seen)
  {
    if FlagFor(Important) in seen || FlagFor(Todo) in seen {
      server.AddFlags(id, [FlagFor(Personal)]);
    }
    var flagsToRemove := FlagsToRemove();
    server.RemoveFlags(id, flagsToRemove);
  }

  /** `mark_as_processed`: relabel every processed message. Every id must be in the snapshot
      (otherwise the dict lookup raises). */
  method MarkAsProcessed(server: ImapServer, messagesToProcess: seq<Id>, messagesWithFlags: seq<Entry>)
    requires server.Valid()
    requires forall id :: id in messagesToProcess ==> id in Keys(messagesWithFlags)
    modifies server`flags, server`trace
    ensures server.Valid()
    ensures server.trace == old(server.trace) + MarkCalls(messagesToProcess, messagesWithFlags)
    ensures server.flags == ApplyAll(old(server.flags), MarkCalls(messagesToProcess, messagesWithFlags))
    ensures server.flags.Keys == old(server.flags).Keys
    ensures forall x :: x in old(server.flags) ==>
      server.flags[x] == if x in messagesToProcess then ProcessedFlags(old(server.flags)[x], FlagsOf(messagesWithFlags, x))
                         else old(server.flags)[x]
  {
    var i := 0;
    assert messagesToProcess[..0] == [];
    while i < |messagesToProcess|
      invariant 0 <= i <= |messagesToProcess|
      invariant server.Valid() && server.initial == old(server.initial)
      invariant forall id :: id in messagesToProcess[..i] ==> id in Keys(messagesWithFlags)
      invariant server.trace == old(server.trace) + MarkCalls(messagesToProcess[..i], messagesWithFlags)
    {
      var id := messagesToProcess[i];
      MarkOne(server, id, FlagsOf(messagesWithFlags, id));
      MarkCallsSnoc(messagesToProcess, i, messagesWithFlags);
      i := i + 1;
    }
    assert messagesToProcess[..i] == messagesToProcess;
    ApplyAllAppend(server.initial, old(server.trace), MarkCalls(messagesToProcess, messagesWithFlags));
    MarkedState(old(server.flags), messagesToProcess, messagesWithFlags);
  }

  /** Each id's requests: an optional personal add, immediately followed by the removal of the
      three triggers, all for that id. */
  lemma StepCallsShape(id: Id, seen: set<Flag>)
    ensures var c := StepCalls(id, seen);
      && |c| == (if EarnsPersonal(seen) then 2 else 1)
      && c[|c| - 1] == Remove(id, ImportantFlags)
      && (EarnsPersonal(seen) ==> c[0] == Add(id, [FlagFor(Personal)]))
  {
  }

  /** Every request names one of `ids`, every removal takes away exactly the three triggers, and
      every add is of personal and is immediately followed by the removal for the same id (so the
      add comes first). */
  predicate WellShaped(c: seq<FlagCall>, ids: seq<Id>) {
    && (forall k :: 0 <= k < |c| ==> c[k].id in ids)
    && (forall k :: 0 <= k < |c| && c[k].Remove? ==> c[k].tokens == ImportantFlags)
    && (forall k :: 0 <= k < |c| && c[k].Add? ==>
          c[k].tokens == [FlagFor(Personal)] && k + 1 < |c| && c[k + 1] == Remove(c[k].id, ImportantFlags))
  }

  /** The request log `mark_as_processed` sends is well shaped. */
  lemma {:induction false} MarkCallsShape(ids: seq<Id>, snapshot: seq<Entry>)
    requires forall id :: id in ids ==> id in Keys(snapshot)
    ensures WellShaped(MarkCalls(ids, snapshot), ids)
  {
    if ids != [] {
      var prefix := ids[..|ids| - 1];
      var id := ids[|ids| - 1];
      assert forall x :: x in prefix ==> x in ids;
      MarkCallsShape(prefix, snapshot);
      StepCallsShape(id, FlagsOf(snapshot, id));
      var a: seq<FlagCall> := MarkCalls(prefix, snapshot);
      var b: seq<FlagCall> := StepCalls(id, FlagsOf(snapshot, id));
      var c := a + b;
      assert MarkCalls(ids, snapshot) == c;
      forall k | 0 <= k < |c|
        ensures c[k].id in ids
        ensures c[k].Remove? ==> c[k].tokens == ImportantFlags
        ensures c[k].Add? ==>
          c[k].tokens == [FlagFor(Personal)] && k + 1 < |c| && c[k + 1] == Remove(c[k].id, ImportantFlags)
      {
        if k < |a| {
          assert c[k] == a[k];
          assert a[k].id in prefix;
          if a[k].Add? {
            assert c[k + 1] == a[k + 1];
          }
        } else {
          assert c[k] == b[k - |a|];
          var remove := Remove(id, ImportantFlags);
          if EarnsPersonal(FlagsOf(snapshot, id)) {
            assert b == [Add(id, [FlagFor(Personal)]), remove];
            if k == |a| {
              assert c[k + 1] == b[1];
            }
          } else {
            assert b == [remove];
          }
        }
      }
    }
  }

  /** How many requests in `calls` are adds (`adds`) or removals (`!adds`) for message `x`. */
  function CountCalls(calls: seq<FlagCall>, x: Id, adds: bool): (n: nat)
    ensures n <= |calls|
  {
    if calls == [] then 0
    else
      var c := calls[|calls| - 1];
      CountCalls(calls[..|calls| - 1], x, adds) + (if c.id == x && c.Add? == adds then 1 else 0)
  }

  lemma {:induction false} CountCallsAppend(a: seq<FlagCall>, b: seq<FlagCall>, x: Id, adds: bool)
    ensures CountCalls(a + b, x, adds) == CountCalls(a, x, adds) + CountCalls(b, x, adds)
    decreases |b|
  {
    if b == [] {
      assert a + b == a;
    } else {
      assert (a + b)[..|a + b| - 1] == a + b[..|b| - 1];
      CountCallsAppend(a, b[..|b| - 1], x, adds);
    }
  }

  lemma CountCallsOne(c: FlagCall, x: Id, adds: bool)
    ensures CountCalls([c], x, adds) == if c.id == x && c.Add? == adds then 1 else 0
  {
    assert [c][..0] == [];
  }

  /** One id's requests hold one removal for it, and one add when it earns personal. */
  lemma StepCallsCount(id: Id, seen: set<Flag>, x: Id, adds: bool)
    ensures CountCalls(StepCalls(id, seen), x, adds)
            == if x != id then 0 else if !adds then 1 else if EarnsPersonal(seen) then 1 else 0
  {
    var add := Add(id, [FlagFor(Personal)]);
    var remove := Remove(id, FlagsToRemove());
    CountCallsOne(add, x, adds);
    CountCallsOne(remove, x, adds);
    if EarnsPersonal(seen) {
      assert StepCalls(id, seen) == [add] + [remove];
      CountCallsAppend([add], [remove], x, adds);
    } else {
      assert StepCalls(id, seen) == [remove];
    }
  }

  lemma DistinctPrefix(ids: seq<Id>)
    requires ids != [] && Distinct(ids)
    ensures Distinct(ids[..|ids| - 1]) && ids[|ids| - 1] !in ids[..|ids| - 1]
  {
    var prefix := ids[..|ids| - 1];
    forall i | 0 <= i < |prefix| ensures prefix[i] != ids[|ids| - 1] {
      assert prefix[i] == ids[i];
    }
  }

  /** For a list of distinct ids: each processed id gets exactly one removal, and exactly one add
      when its snapshot flags were important or todo (none otherwise); any other id gets nothing. */
  lemma {:induction false} MarkCallsCount(ids: seq<Id>, snapshot: seq<Entry>, x: Id, adds: bool)
    requires forall id :: id in ids ==> id in Keys(snapshot)
    requires Distinct(ids)
    ensures CountCalls(MarkCalls(ids, snapshot), x, adds)
            == if x !in ids then 0 else if !adds then 1 else if EarnsPersonal(FlagsOf(snapshot, x)) then 1 else 0
  {
    if ids != [] {
      var prefix := ids[..|ids| - 1];
      var id := ids[|ids| - 1];
      assert ids == prefix + [id];
      assert forall y :: y in prefix ==> y in ids;
      DistinctPrefix(ids);
      MarkCallsCount(prefix, snapshot, x, adds);
      CountCallsAppend(MarkCalls(prefix, snapshot), StepCalls(id, FlagsOf(snapshot, id)), x, adds);
      StepCallsCount(id, FlagsOf(snapshot, id), x, adds);
    }
  }

  /** The personal token is not one of the triggers. */
  lemma PersonalIsNoTrigger()
    ensures FlagFor(Personal) !in TriggerSet
  {
    FlagForInjective(Personal, Important);
    FlagForInjective(Personal, Work);
    FlagForInjective(Personal, Todo);
  }

  /** The flags of a processed message after relabelling, given its current flags and the flags it
      had in the snapshot: personal added when it was important or todo, then the triggers removed. */
  function ProcessedFlags(current: set<Flag>, seen: set<Flag>): (r: set<Flag>)
    ensures !Triggers(r)
    ensures FlagFor(Personal) in r <==> EarnsPersonal(seen) || FlagFor(Personal) in current
    ensures forall f :: f in r <==> f !in TriggerSet && (f in current || (f == FlagFor(Personal) && EarnsPersonal(seen)))
  {
    PersonalIsNoTrigger();
    (current + (if EarnsPersonal(seen) then {FlagFor(Personal)} else {})) - TriggerSet
  }

  /** Relabelling a message twice with the same snapshot flags is the same as relabelling it once. */
  lemma ProcessedFlagsIdempotent(current: set<Flag>, seen: set<Flag>)
    ensures ProcessedFlags(ProcessedFlags(current, seen), seen) == ProcessedFlags(current, seen)
  {
  }

  lemma TokenSets()
    ensures TokenSet(FlagsToRemove()) == TriggerSet
    ensures TokenSet([FlagFor(Personal)]) == {FlagFor(Personal)}
  {
  }

  /** The effect of one id's requests on the flag table. */
  lemma StepEffect(st: map<Id, set<Flag>>, id: Id, seen: set<Flag>)
    ensures var r := ApplyAll(st, StepCalls(id, seen));
      && r.Keys == st.Keys
      && (forall x :: x in st && x != id ==> r[x] == st[x])
      && (id in st ==> r[id] == ProcessedFlags(st[id], seen))
  {
    StepCallsApply(st, id, seen);
    TokenSets();
  }

  /** The flag table after `mark_as_processed`: the same messages, each processed one relabelled
      from its current flags and its snapshot flags, every other one unchanged. A repeated id does
      no further harm. */
  lemma {:induction false} MarkedState(st: map<Id, set<Flag>>, ids: seq<Id>, snapshot: seq<Entry>)
    requires forall id :: id in ids ==> id in Keys(snapshot)
    ensures var r := ApplyAll(st, MarkCalls(ids, snapshot));
      && r.Keys == st.Keys
      && (forall x :: x in st ==>
            r[x] == if x in ids then ProcessedFlags(st[x], FlagsOf(snapshot, x)) else st[x])
  {
    if ids != [] {
      var prefix := ids[..|ids| - 1];
      var id := ids[|ids| - 1];
      var seen := FlagsOf(snapshot, id);
      assert ids == prefix + [id];
      assert forall y :: y in prefix ==> y in ids;
      MarkedState(st, prefix, snapshot);
      var mid := ApplyAll(st, MarkCalls(prefix, snapshot));
      var r := ApplyAll(st, MarkCalls(ids, snapshot));
      ApplyAllAppend(st, MarkCalls(prefix, snapshot), StepCalls(id, seen));
      assert r == ApplyAll(mid, StepCalls(id, seen));
      StepEffect(mid, id, seen);
      forall x | x in st
        ensures r[x] == if x in ids then ProcessedFlags(st[x], FlagsOf(snapshot, x)) else st[x]
      {
        if x == id {
          if id in prefix {
            ProcessedFlagsIdempotent(st[x], seen);
          }
        } else {
          assert x in ids <==> x in prefix;
        }
      }
    }
  }

  /** After `mark_as_processed` no processed message carries a trigger, so a fresh snapshot of any
      ids selects none of them again. */
  lemma NotSelectedAgain(st: map<Id, set<Flag>>, ids: seq<Id>, snapshot: seq<Entry>, requested: seq<Id>)
    requires forall id :: id in ids ==> id in Keys(snapshot)
    ensures forall x :: x in ids ==> x !in Selected(Snapshot(ApplyAll(st, MarkCalls(ids, snapshot)), requested))
  {
    var r := ApplyAll(st, MarkCalls(ids, snapshot));
    MarkedState(st, ids, snapshot);
    var again := Snapshot(r, requested);
    forall x | x in ids
      ensures x !in Selected(again)
    {
      assert forall k :: 0 <= k < |again| && again[k].id == x ==> !Triggers(again[k].flags);
      SelectedMembership(again, x);
    }
  }

  /** A message that was only todo gains personal and loses its triggers; one that was only work
      just loses its triggers. */
  lemma TodoAndWorkOnly(current: set<Flag>)
    ensures ProcessedFlags(current, {FlagFor(Todo)}) == (current + {FlagFor(Personal)}) - TriggerSet
    ensures ProcessedFlags(current, {FlagFor(Work)}) == current - TriggerSet
  {
    FlagForInjective(Work, Important);
    FlagForInjective(Work, Todo);
  }
}
