/** The gateway's registry of live peer sessions: per canonical identity, an ordered slice edited in place. */
module Sessions {
  import opened Values

  /** A QUIC connection, known only by its identity as a reference. */
  type Conn = nat

  /** `strings.TrimSuffix(identity, "/")`. */
  function Canonical(identity: string): string {
    if |identity| > 0 && identity[|identity| - 1] == '/' then identity[..|identity| - 1] else identity
  }

  /** Accepted peers are canonicalised twice and dialled peers once; the two agree unless the identity ends in two slashes. */
  lemma CanonicalTwice(identity: string)
    ensures Canonical(Canonical(identity)) == Canonical(identity) <==>
            !(|identity| >= 2 && identity[|identity| - 2..] == "//")
  {
    if |identity| >= 2 {
      assert identity[|identity| - 2..] == [identity[|identity| - 2], identity[|identity| - 1]];
    }
  }

  // ---------------------------------------------------------------------------------------------
  // The registry as a map of ordered lists
  // ---------------------------------------------------------------------------------------------

  type View = map<string, seq<Conn>>

  function ListOf(v: View, key: string): seq<Conn> {
    if key in v then v[key] else []
  }

  function RemoveFirst(list: seq<Conn>, c: Conn): (r: seq<Conn>)
    ensures c !in list ==> r == list
  {
    if list == [] then []
    else if list[0] == c then list[1..]
    else [list[0]] + RemoveFirst(list[1..], c)
  }

  function WithList(v: View, key: string, list: seq<Conn>): View {
    if list == [] then v - {key} else v[key := list]
  }

  function Put(v: View, identity: string, c: Conn): View {
    WithList(v, Canonical(identity), ListOf(v, Canonical(identity)) + [c])
  }

  function Remove(v: View, identity: string, c: Conn): View {
    WithList(v, Canonical(identity), RemoveFirst(ListOf(v, Canonical(identity)), c))
  }

  /** Removing the element at the index of its first occurrence. */
  lemma {:induction false} RemoveFirstAt(list: seq<Conn>, c: Conn, i: nat)
    requires i < |list| && list[i] == c && c !in list[..i]
    ensures RemoveFirst(list, c) == list[..i] + list[i + 1..]
  {
    if i > 0 {
      assert c !in list[1..][..i - 1] by {
        assert list[1..][..i - 1] == list[..i][1..];
      }
      RemoveFirstAt(list[1..], c, i - 1);
    }
  }

  // ---------------------------------------------------------------------------------------------
  // The registry in place
  // ---------------------------------------------------------------------------------------------

  /** A Go slice: a backing array, of which the first `len` elements are in use. */
  datatype Slice = Slice(data: array<Conn>, len: nat)

  class SessionRegistry {
    var sessions: map<string, Slice>

    ghost function Arrays(): set<array<Conn>>
      reads this
    {
      set k | k in sessions :: sessions[k].data
    }

    /** No slice is empty and no two share their backing array. */
    ghost predicate Valid()
      reads this, Arrays()
    {
      && (forall k <- sessions :: 0 < sessions[k].len <= sessions[k].data.Length)
      && (forall j, k | j in sessions && k in sessions && j != k :: sessions[j].data != sessions[k].data)
    }

    ghost function Contents(): View
      requires Valid()
      reads this, Arrays()
    {
      map k | k in sessions :: sessions[k].data[..sessions[k].len]
    }

    constructor ()
      ensures Valid() && Contents() == map[] && Arrays() == {}
    {
      sessions := map[];
    }

    /** Storing `slice` under `key` after touching no other slice: the other lists are as before. */
    twostate lemma Stored(key: string, new slice: Slice)
      requires old(Valid())
      requires slice.len <= slice.data.Length
      requires sessions == (if slice.len == 0 then old(sessions) - {key} else old(sessions)[key := slice])
      requires forall k | k in old(sessions) && k != key ::
        && old(sessions[k]).data != slice.data
        && old(sessions[k]).data[..old(sessions[k]).len] == old(sessions[k].data[..sessions[k].len])
      ensures Valid() && Contents() == WithList(old(Contents()), key, slice.data[..slice.len])
    {
      var list := slice.data[..slice.len];
      var v := WithList(old(Contents()), key, list);
      assert Valid();
      assert |list| == slice.len;
      assert forall k :: k in v <==> k in sessions;
      forall k | k in sessions ensures sessions[k].data[..sessions[k].len] == v[k] {
        if k != key {
          assert v[k] == old(Contents())[k];
        }
      }
      assert Contents() == v;
    }

    method PutSession(identity: string, c: Conn)
      requires Valid()
      modifies this, Arrays()
      ensures Valid() && fresh(Arrays() - old(Arrays()))
      ensures Contents() == Put(old(Contents()), identity, c)
    {
      var key := Canonical(identity);
      ghost var list := ListOf(Contents(), key);
      var slice;
      if key in sessions {
        slice := Append(sessions[key], c);
      } else {
        var data := new Conn[1](_ => c);
        slice := Slice(data, 1);
      }
      sessions := sessions[key := slice];
      assert slice.data[..slice.len] == list + [c];
      Stored(key, slice);
      assert Arrays() <= old(Arrays()) + {slice.data};
    }

    method Get(identity: string) returns (r: Option<Conn>)
      requires Valid()
      ensures var list := ListOf(Contents(), Canonical(identity));
              r == if list == [] then None else Some(list[0])
    {
      var key := Canonical(identity);
      if key in sessions && sessions[key].len > 0 {
        return Some(sessions[key].data[0]);
      }
      return None;
    }

    method Has(identity: string) returns (r: bool)
      requires Valid()
      ensures r <==> ListOf(Contents(), Canonical(identity)) != []
    {
      var key := Canonical(identity);
      return key in sessions && sessions[key].len > 0;
    }

    method RemoveSession(identity: string, c: Conn)
      requires Valid()
      modifies this, Arrays()
      ensures Valid() && Arrays() <= old(Arrays())
      ensures Contents() == Remove(old(Contents()), identity, c)
    {
      var key := Canonical(identity);
      if key !in sessions {
        return;
      }
      var slice := Cut(sessions[key], c);
      if slice.len == 0 {
        sessions := sessions - {key};
      } else {
        sessions := sessions[key := slice];
      }
      Stored(key, slice);
    }
  }

  /** Go's `append`: in place while there is capacity, into a larger array otherwise. */
  method Append(slice: Slice, c: Conn) returns (r: Slice)
    requires slice.len <= slice.data.Length
    modifies slice.data
    ensures r.len == slice.len + 1 <= r.data.Length
    ensures r.data == slice.data || fresh(r.data)
    ensures r.data[..r.len] == old(slice.data[..slice.len]) + [c]
  {
    if slice.len < slice.data.Length {
      slice.data[slice.len] := c;
      return Slice(slice.data, slice.len + 1);
    }
    var grown := new Conn[2 * slice.len + 1](_ => c);
    for i := 0 to slice.len
      invariant slice.data[..] == old(slice.data[..])
      invariant forall k | 0 <= k < i :: grown[k] == slice.data[k]
      invariant grown[slice.len] == c
    {
      grown[i] := slice.data[i];
    }
    assert grown[..slice.len] == slice.data[..slice.len];
    return Slice(grown, slice.len + 1);
  }

  /** The removal loop: the first occurrence of `c` is shifted out of the slice. */
  method Cut(slice: Slice, c: Conn) returns (r: Slice)
    requires slice.len <= slice.data.Length
    modifies slice.data
    ensures r.data == slice.data && r.len <= r.data.Length
    ensures r.data[..r.len] == RemoveFirst(old(slice.data[..slice.len]), c)
  {
    ghost var before := slice.data[..slice.len];
    var i := 0;
    while i < slice.len && slice.data[i] != c
      invariant 0 <= i <= slice.len && c !in before[..i]
    {
      assert before[..i + 1] == before[..i] + [before[i]];
      i := i + 1;
    }
    if i == slice.len {
      assert before[..i] == before;
      return slice;
    }
    RemoveFirstAt(before, c, i);
    assert before[..i] == slice.data[..i] && before[i + 1..] == slice.data[i + 1..slice.len];
    ShiftDown(slice.data, i, slice.len);
    return Slice(slice.data, slice.len - 1);
  }

  /** `append(a[:i], a[i+1:len]...)`, in place. */
  method ShiftDown(a: array<Conn>, i: nat, len: nat)
    requires i < len <= a.Length
    modifies a
    ensures a[..len - 1] == old(a[..i] + a[i + 1..len])
  {
    for j := i to len - 1
      invariant a[..i] == old(a[..i])
      invariant forall k | i <= k < j :: a[k] == old(a[k + 1])
      invariant forall k | j <= k < len :: a[k] == old(a[k])
    {
      a[j] := a[j + 1];
    }
  }

  // ---------------------------------------------------------------------------------------------
  // Every interleaving of registrations and removals
  // ---------------------------------------------------------------------------------------------

  /** A handler registering its connection, or a handler exit or failed import removing one. */
  datatype Event = Registered(identity: string, conn: Conn) | Removed(identity: string, conn: Conn)

  function Replay(events: seq<Event>): View {
    if events == [] then map[]
    else
      var before := Replay(events[..|events| - 1]);
      match events[|events| - 1]
      case Registered(identity, c) => Put(before, identity, c)
      case Removed(identity, c) => Remove(before, identity, c)
  }

  predicate RemovedIn(events: seq<Event>, key: string, c: Conn) {
    exists e <- events :: e.Removed? && Canonical(e.identity) == key && e.conn == c
  }

  /** The connections registered under `key` and not removed afterwards, in registration order. */
  function Live(events: seq<Event>, key: string): seq<Conn> {
    if events == [] then []
    else
      var e, rest := events[0], events[1..];
      if e.Registered? && Canonical(e.identity) == key && !RemovedIn(rest, key, e.conn)
      then [e.conn] + Live(rest, key)
      else Live(rest, key)
  }

  /** Every connection is registered at most once. */
  predicate DistinctConns(events: seq<Event>) {
    forall i, j | 0 <= i < j < |events| && events[i].Registered? && events[j].Registered? :: events[i].conn != events[j].conn
  }

  predicate NoDuplicates(list: seq<Conn>) {
    forall i, j | 0 <= i < j < |list| :: list[i] != list[j]
  }

  lemma {:induction false} LiveAreRegistered(events: seq<Event>, key: string)
    requires DistinctConns(events)
    ensures forall c <- Live(events, key) :: exists i :: 0 <= i < |events| && events[i].Registered? && events[i].conn == c
    ensures NoDuplicates(Live(events, key))
  {
    if events != [] {
      var rest := events[1..];
      assert DistinctConns(rest);
      LiveAreRegistered(rest, key);
      forall c | c in Live(events, key) ensures exists i :: 0 <= i < |events| && events[i].Registered? && events[i].conn == c {
        if c in Live(rest, key) {
          var i :| 0 <= i < |rest| && rest[i].Registered? && rest[i].conn == c;
          assert events[i + 1] == rest[i];
        } else {
          assert events[0].Registered? && events[0].conn == c;
        }
      }
      assert forall i | 0 <= i < |rest| :: rest[i] == events[i + 1];
      assert events[0].Registered? ==> events[0].conn !in Live(rest, key);
    }
  }

  lemma {:induction false} LivePut(events: seq<Event>, identity: string, c: Conn, key: string)
    ensures Live(events + [Registered(identity, c)], key) ==
            Live(events, key) + if Canonical(identity) == key then [c] else []
  {
    var last := [Registered(identity, c)];
    if events == [] {
      assert events + last == last && last[1..] == [];
    } else {
      assert (events + last)[1..] == events[1..] + last;
      assert RemovedIn(events[1..] + last, key, events[0].conn) == RemovedIn(events[1..], key, events[0].conn);
      LivePut(events[1..], identity, c, key);
    }
  }

  function Without(list: seq<Conn>, c: Conn): seq<Conn> {
    if list == [] then [] else (if list[0] == c then [] else [list[0]]) + Without(list[1..], c)
  }

  lemma {:induction false} LiveRemove(events: seq<Event>, identity: string, c: Conn, key: string)
    ensures Live(events + [Removed(identity, c)], key) ==
            if Canonical(identity) == key then Without(Live(events, key), c) else Live(events, key)
  {
    var last := [Removed(identity, c)];
    if events == [] {
      assert events + last == last && last[1..] == [];
    } else {
      assert (events + last)[1..] == events[1..] + last;
      var removed := RemovedIn(events[1..], key, events[0].conn);
      assert RemovedIn(events[1..] + last, key, events[0].conn) ==
             (removed || (Canonical(identity) == key && events[0].conn == c)) by {
        assert last[0] in events[1..] + last;
        assert forall e <- events[1..] :: e in events[1..] + last;
      }
      LiveRemove(events[1..], identity, c, key);
      if events[0].Registered? && Canonical(events[0].identity) == key && !removed {
        assert Live(events, key)[1..] == Live(events[1..], key);
      }
    }
  }

  lemma {:induction false} WithoutIsRemoveFirst(list: seq<Conn>, c: Conn)
    requires NoDuplicates(list)
    ensures Without(list, c) == RemoveFirst(list, c)
    ensures c !in list ==> Without(list, c) == list
  {
    if list != [] {
      WithoutIsRemoveFirst(list[1..], c);
    }
  }

  /** In every interleaving the registry holds exactly the connections not yet removed, in registration order, and no empty list. */
  lemma {:induction false} RegistryHoldsLive(events: seq<Event>, key: string)
    requires DistinctConns(events)
    ensures ListOf(Replay(events), key) == Live(events, key)
    ensures key in Replay(events) <==> Live(events, key) != []
  {
    if events != [] {
      var before, e := events[..|events| - 1], events[|events| - 1];
      assert events == before + [e];
      RegistryHoldsLive(before, key);
      match e
      case Registered(identity, c) =>
        LivePut(before, identity, c, key);
      case Removed(identity, c) =>
        LiveRemove(before, identity, c, key);
        LiveAreRegistered(before, key);
        WithoutIsRemoveFirst(Live(before, key), c);
    }
  }

  lemma {:induction false} WithoutKeeps(list: seq<Conn>, c: Conn, d: Conn)
    requires c != d
    ensures d in Without(list, c) <==> d in list
  {
    if list != [] {
      WithoutKeeps(list[1..], c, d);
      assert list == [list[0]] + list[1..];
    }
  }

  /** Removing one connection never evicts another, under any identity. */
  lemma RemovalEvictsNoOther(events: seq<Event>, identity: string, c: Conn, d: Conn, key: string)
    requires DistinctConns(events) && c != d
    ensures d in ListOf(Replay(events + [Removed(identity, c)]), key) <==> d in ListOf(Replay(events), key)
  {
    assert DistinctConns(events + [Removed(identity, c)]);
    RegistryHoldsLive(events, key);
    RegistryHoldsLive(events + [Removed(identity, c)], key);
    LiveRemove(events, identity, c, key);
    WithoutKeeps(Live(events, key), c, d);
  }
}
