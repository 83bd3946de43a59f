/** `filter_messages_to_process`: which messages of an id-to-flags table become tasks. */
module Selection {
  import opened Registry

  /** A server-assigned message number. */
  type Id = nat

  /** One row of the id-to-flags table the server returns; the table is a sequence of rows in
      insertion order, as a Python dict iterates. */
  datatype Entry = Entry(id: Id, flags: set<Flag>)

  /** The ids a table holds. */
  function Keys(m: seq<Entry>): set<Id> {
    set e | e in m :: e.id
  }

  /** A table read from a dict holds each id once. */
  predicate DistinctIds(m: seq<Entry>) {
    forall i, j :: 0 <= i < j < |m| ==> m[i].id != m[j].id
  }

  /** No value appears twice. */
  predicate Distinct(s: seq<Id>) {
    forall i, j :: 0 <= i < j < |s| ==> s[i] != s[j]
  }

  /** The flags stored for `id` (the dict lookup `messages_with_flags[id]`). */
  function FlagsOf(m: seq<Entry>, id: Id): (r: set<Flag>)
    requires id in Keys(m)
    ensures exists i :: 0 <= i < |m| && m[i].id == id && m[i].flags == r
  {
    if m[0].id == id then m[0].flags
    else
      assert id in Keys(m[1..]) by {
        var e :| e in m && e.id == id;
        assert e != m[0];
      }
      FlagsOf(m[1..], id)
  }

  /** The ids of the rows whose flags trigger processing, in table order. */
  function Selected(m: seq<Entry>): (r: seq<Id>)
    ensures forall id :: id in r ==> id in Keys(m)
  {
    if m == [] then []
    else
      var last := m[|m| - 1];
      assert m == m[..|m| - 1] + [last];
      Selected(m[..|m| - 1]) + (if Triggers(last.flags) then [last.id] else [])
  }

  /** `filter_messages_to_process`: the loop that appends each triggering id in turn. */
  method FilterMessagesToProcess(messagesWithFlags: seq<Entry>) returns (toProcess: seq<Id>)
    ensures toProcess == Selected(messagesWithFlags)
  {
    toProcess := [];
    var i := 0;
    while i < |messagesWithFlags|
      invariant 0 <= i <= |messagesWithFlags|
      invariant toProcess == Selected(messagesWithFlags[..i])
    {
      var e := messagesWithFlags[i];
      if e.flags * TriggerSet != {} {
        toProcess := toProcess + [e.id];
      }
      assert messagesWithFlags[..i + 1][..i] == messagesWithFlags[..i];
      i := i + 1;
    }
    assert messagesWithFlags[..i] == messagesWithFlags;
  }

  /** The selection is the table's ids at the positions of the triggering rows, taken in increasing
      order: this fixes both which ids are selected and the order they come in. */
  lemma {:induction false} SelectedPositions(m: seq<Entry>) returns (idx: seq<nat>)
    ensures |idx| == |Selected(m)|
    ensures forall k :: 0 <= k < |idx| ==> idx[k] < |m| && Selected(m)[k] == m[idx[k]].id
    ensures forall k, l :: 0 <= k < l < |idx| ==> idx[k] < idx[l]
    ensures forall i :: 0 <= i < |m| ==> (Triggers(m[i].flags) <==> i in idx)
  {
    if m == [] {
      idx := [];
    } else {
      var n := |m| - 1;
      var front := m[..n];
      var prev := SelectedPositions(front);
      var extra: seq<nat> := if Triggers(m[n].flags) then [n] else [];
      assert Selected(m) == Selected(front) + (if Triggers(m[n].flags) then [m[n].id] else []);
      idx := prev + extra;
      forall k | 0 <= k < |idx|
        ensures idx[k] < |m| && Selected(m)[k] == m[idx[k]].id
      {
        if k < |prev| {
          assert idx[k] == prev[k] && Selected(m)[k] == Selected(front)[k];
          assert front[prev[k]] == m[prev[k]];
        }
      }
      forall i | 0 <= i < |m|
        ensures Triggers(m[i].flags) <==> i in idx
      {
        if i < n {
          assert front[i] == m[i];
          assert i in idx <==> i in prev;
        }
      }
    }
  }

  /** An id is selected exactly when some row with that id carries a triggering flag. */
  lemma SelectedMembership(m: seq<Entry>, id: Id)
    ensures id in Selected(m) <==> exists i :: 0 <= i < |m| && m[i].id == id && Triggers(m[i].flags)
  {
    var idx := SelectedPositions(m);
    if id in Selected(m) {
      var k :| 0 <= k < |Selected(m)| && Selected(m)[k] == id;
      assert m[idx[k]].id == id && Triggers(m[idx[k]].flags);
    }
    if exists i :: 0 <= i < |m| && m[i].id == id && Triggers(m[i].flags) {
      var i :| 0 <= i < |m| && m[i].id == id && Triggers(m[i].flags);
      var k :| 0 <= k < |idx| && idx[k] == i;
      assert Selected(m)[k] == id;
    }
  }

  /** A table from a dict yields each selected id once. */
  lemma SelectedDistinct(m: seq<Entry>)
    requires DistinctIds(m)
    ensures Distinct(Selected(m))
  {
    var idx := SelectedPositions(m);
  }

  /** An empty table selects nothing, and so does a table whose rows carry none of the triggers. */
  lemma {:induction false} NothingTriggersNothingSelected(m: seq<Entry>)
    requires forall i :: 0 <= i < |m| ==> !Triggers(m[i].flags)
    ensures Selected(m) == []
  {
    if m != [] {
      NothingTriggersNothingSelected(m[..|m| - 1]);
    }
  }

  /** A message labelled only star, personal or later is not selected. */
  lemma PassiveMessageExcluded(m: seq<Entry>, i: nat)
    requires DistinctIds(m) && i < |m|
    requires m[i].flags <= {FlagFor(Star), FlagFor(Personal), FlagFor(Later)}
    ensures m[i].id !in Selected(m)
  {
    PassiveLabelsDoNotTrigger(m[i].flags);
    SelectedMembership(m, m[i].id);
  }
}
