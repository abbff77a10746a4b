/** The session records that `populateWithCurrentSession` rebuilds: the
    session manager is seen only through `removeAllCurrentSessions` (drop
    every record tagged with the current-session tag) and `addSession`
    (append one record). */
module Sessions {

  import opened Base

  datatype Session = Session(tag: string, event: string)

  /** `removeAllCurrentSessions`: keeps exactly the records with another tag, in order. */
  function RemoveAllCurrent(store: seq<Session>, current: string): (r: seq<Session>)
    ensures forall s :: s in r <==> s in store && s.tag != current
    ensures |r| <= |store|
  {
    if |store| == 0 then []
    else (if store[0].tag == current then [] else [store[0]]) + RemoveAllCurrent(store[1..], current)
  }

  /** `addSession(tag, event)`. */
  function AddSession(store: seq<Session>, tag: string, event: string): seq<Session>
  {
    store + [Session(tag, event)]
  }

  /** One `addSession(current, name)` per name, in the order of the array. */
  function AddCurrent(store: seq<Session>, current: string, names: seq<string>): (r: seq<Session>)
    ensures |r| == |store| + |names|
    ensures r[..|store|] == store
    ensures forall i :: 0 <= i < |names| ==> r[|store| + i] == Session(current, names[i])
    decreases |names|
  {
    if |names| == 0 then store
    else
      var r := AddCurrent(AddSession(store, current, names[0]), current, names[1..]);
      assert r[|store|] == Session(current, names[0]);
      r
  }

  /** The body of `populateWithCurrentSession` once `getEventNames` has
      answered: remove all current records, then add one per event name;
      a null answer (None) leaves only the removal. */
  function Populate(store: seq<Session>, current: string, names: Option<seq<string>>): seq<Session>
  {
    var cleared := RemoveAllCurrent(store, current);
    if names.Some? then AddCurrent(cleared, current, names.value) else cleared
  }

  /** The event names of the records carrying `tag`, in store order: an
      independent view used to state what `Populate` leaves behind. */
  function EventsTagged(store: seq<Session>, tag: string): seq<string>
  {
    if |store| == 0 then []
    else (if store[0].tag == tag then [store[0].event] else []) + EventsTagged(store[1..], tag)
  }

  lemma {:induction false} RemoveAllCurrentAppend(a: seq<Session>, b: seq<Session>, current: string)
    ensures RemoveAllCurrent(a + b, current) == RemoveAllCurrent(a, current) + RemoveAllCurrent(b, current)
  {
    if |a| > 0 {
      assert (a + b)[1..] == a[1..] + b;
      RemoveAllCurrentAppend(a[1..], b, current);
    } else {
      assert a + b == b;
    }
  }

  lemma {:induction false} EventsTaggedAppend(a: seq<Session>, b: seq<Session>, tag: string)
    ensures EventsTagged(a + b, tag) == EventsTagged(a, tag) + EventsTagged(b, tag)
  {
    if |a| > 0 {
      assert (a + b)[1..] == a[1..] + b;
      EventsTaggedAppend(a[1..], b, tag);
    } else {
      assert a + b == b;
    }
  }

  /** Removing twice removes nothing more. */
  lemma {:induction false} RemoveAllCurrentIdempotent(store: seq<Session>, current: string)
    ensures RemoveAllCurrent(RemoveAllCurrent(store, current), current) == RemoveAllCurrent(store, current)
  {
    if |store| > 0 {
      var head := if store[0].tag == current then [] else [store[0]];
      RemoveAllCurrentAppend(head, RemoveAllCurrent(store[1..], current), current);
      RemoveAllCurrentIdempotent(store[1..], current);
    }
  }

  /** Appending current records adds nothing the removal keeps, and adds
      exactly the appended names to the current events. */
  lemma {:induction false} AddCurrentViews(store: seq<Session>, current: string, names: seq<string>)
    ensures RemoveAllCurrent(AddCurrent(store, current, names), current) == RemoveAllCurrent(store, current)
    ensures EventsTagged(AddCurrent(store, current, names), current) == EventsTagged(store, current) + names
    decreases |names|
  {
    if |names| > 0 {
      var one := [Session(current, names[0])];
      AddCurrentViews(AddSession(store, current, names[0]), current, names[1..]);
      RemoveAllCurrentAppend(store, one, current);
      EventsTaggedAppend(store, one, current);
      assert RemoveAllCurrent(one, current) == [];
      assert EventsTagged(one, current) == [names[0]];
      assert [names[0]] + names[1..] == names;
    }
  }

  /** After the removal no current record is left. */
  lemma {:induction false} NoCurrentAfterRemoval(store: seq<Session>, current: string)
    ensures EventsTagged(RemoveAllCurrent(store, current), current) == []
  {
    if |store| > 0 {
      var head := if store[0].tag == current then [] else [store[0]];
      EventsTaggedAppend(head, RemoveAllCurrent(store[1..], current), current);
      NoCurrentAfterRemoval(store[1..], current);
    }
  }

  /** The current records after a refresh are exactly the returned event
      names, in order (none when the answer was null), whatever current
      records were stored before. */
  lemma PopulateCurrentEvents(store: seq<Session>, current: string, names: Option<seq<string>>)
    ensures EventsTagged(Populate(store, current, names), current)
            == (if names.Some? then names.value else [])
  {
    NoCurrentAfterRemoval(store, current);
    if names.Some? {
      AddCurrentViews(RemoveAllCurrent(store, current), current, names.value);
    }
  }

  /** A refresh never touches a record with another tag: the records with
      other tags, in order, are the same before and after. */
  lemma PopulateKeepsOtherRecords(store: seq<Session>, current: string, names: Option<seq<string>>)
    ensures RemoveAllCurrent(Populate(store, current, names), current) == RemoveAllCurrent(store, current)
  {
    RemoveAllCurrentIdempotent(store, current);
    if names.Some? {
      AddCurrentViews(RemoveAllCurrent(store, current), current, names.value);
    }
  }

  /** Refreshing twice with the same live event names gives the same records
      as refreshing once: old current records never accumulate. */
  lemma PopulateIdempotent(store: seq<Session>, current: string, names: Option<seq<string>>)
    ensures Populate(Populate(store, current, names), current, names) == Populate(store, current, names)
  {
    PopulateKeepsOtherRecords(store, current, names);
  }
}
