/** The application's older connection manager: live connections kept in one list
    per user id, duplicates included. */
module ConnectionRegistry {
  import opened Wrappers
  import opened Channels

  /** User id to the list of that user's connections, in registration order. */
  type Index = map<string, seq<ConnId>>

  /** The registry's invariant: a list that exists is not empty. */
  ghost predicate NoEmptyLists(m: Index)
  {
    forall k :: k in m ==> m[k] != []
  }

  /** The connections of `k`; none when it has no list. */
  function ListOf(m: Index, k: string): seq<ConnId>
  {
    if k in m then m[k] else []
  }

  /** Registering `c` for `k`: the list is created when missing and `c` is appended,
      even when it is already there; nothing else changes. */
  function Append(m: Index, k: string, c: ConnId): (r: Index)
    ensures r.Keys == m.Keys + {k}
    ensures r[k] == ListOf(m, k) + [c]
    ensures multiset(r[k])[c] == multiset(ListOf(m, k))[c] + 1
    ensures forall j :: j in m && j != k ==> r[j] == m[j]
    ensures NoEmptyLists(m) ==> NoEmptyLists(r)
  {
    m[k := ListOf(m, k) + [c]]
  }

  /** The position of the first occurrence of `x`. */
  function FirstIndex(s: seq<ConnId>, x: ConnId): (i: nat)
    requires x in s
    ensures i < |s| && s[i] == x && x !in s[..i]
  {
    if s[0] == x then 0 else 1 + FirstIndex(s[1..], x)
  }

  /** `list.remove(x)`: drops the first occurrence of `x` and keeps the rest in order. */
  function RemoveFirst(s: seq<ConnId>, x: ConnId): (r: seq<ConnId>)
    requires x in s
    ensures |r| == |s| - 1
    ensures var i := FirstIndex(s, x);
      (forall j :: 0 <= j < i ==> r[j] == s[j]) && (forall j :: i <= j < |r| ==> r[j] == s[j + 1])
    ensures multiset(r) == multiset(s) - multiset{x}
  {
    if s[0] == x then
      assert s == [s[0]] + s[1..];
      s[1..]
    else
      var rest := RemoveFirst(s[1..], x);
      assert s == [s[0]] + s[1..];
      assert multiset(s[1..]) == multiset(rest) + multiset{x};
      [s[0]] + rest
  }

  /** The exception `list.remove` raises for an absent element. */
  datatype DisconnectError = ValueError

  /** Unregistering `c` for `k`: an unknown user is ignored; an absent connection is an
      error and changes nothing; otherwise its first occurrence is removed and a list
      left empty is deleted. */
  function RemoveConnection(m: Index, k: string, c: ConnId): (r: Result<Index, DisconnectError>)
    ensures k !in m ==> r == Ok(m)
    ensures k in m && c !in m[k] ==> r == Err(ValueError)
    ensures k in m && c in m[k] ==>
      && r.Ok?
      && ListOf(r.value, k) == RemoveFirst(m[k], c)
      && (k in r.value <==> |m[k]| > 1)
      && r.value.Keys <= m.Keys
      && forall j :: j in m && j != k ==> j in r.value && r.value[j] == m[j]
    ensures r.Ok? && NoEmptyLists(m) ==> NoEmptyLists(r.value)
  {
    if k in m then
      if c in m[k] then
        var rest := RemoveFirst(m[k], c);
        assert rest == [] <==> |m[k]| == 1;
        if rest == [] then Ok(m - {k}) else Ok(m[k := rest])
      else
        Err(ValueError)
    else
      Ok(m)
  }

  /** Removing a connection appended to a list that did not hold it gives the list back. */
  lemma RemoveAppended(l: seq<ConnId>, c: ConnId)
    requires c !in l
    ensures RemoveFirst(l + [c], c) == l
  {
    var s := l + [c];
    assert s[..|l|] == l;
    assert FirstIndex(s, c) == |l|;
  }

  /** Overwriting a key and then writing its old value back restores the map. */
  lemma UpdateThenRestore<K, V>(m: map<K, V>, k: K, v: V)
    requires k in m
    ensures m[k := v][k := m[k]] == m
  {
  }

  /** Overwriting a key and then deleting it is deleting it. */
  lemma UpdateThenDelete<K, V>(m: map<K, V>, k: K, v: V)
    ensures m[k := v] - {k} == m - {k}
  {
  }

  /** Removing one of several connections keeps the user's shortened list. */
  lemma RemoveFromLongList(m: Index, k: string, c: ConnId)
    requires k in m && c in m[k] && |m[k]| > 1
    ensures RemoveConnection(m, k, c) == Ok(m[k := RemoveFirst(m[k], c)])
  {
  }

  /** Registering a new connection for a known user and unregistering it restores the index. */
  lemma AppendThenRemoveKnown(m: Index, k: string, c: ConnId)
    requires k in m && m[k] != [] && c !in m[k]
    ensures RemoveConnection(Append(m, k, c), k, c) == Ok(m)
  {
    var a := Append(m, k, c);
    assert a[k] == m[k] + [c];
    RemoveFromLongList(a, k, c);
    RemoveAppended(m[k], c);
    assert a == m[k := m[k] + [c]];
    UpdateThenRestore(m, k, m[k] + [c]);
  }

  /** Registering a connection for an unknown user and unregistering it restores the index. */
  lemma AppendThenRemoveUnknown(m: Index, k: string, c: ConnId)
    requires k !in m
    ensures RemoveConnection(Append(m, k, c), k, c) == Ok(m)
  {
    var a := Append(m, k, c);
    assert a[k] == [c];
    assert RemoveFirst(a[k], c) == [];
    assert a - {k} == m;
  }

  /** Registering and then unregistering a connection leaves the user's list with the
      same elements; the index is unchanged when the connection was new, but with a
      duplicate it is the older occurrence that goes. */
  lemma AppendThenRemove(m: Index, k: string, c: ConnId)
    requires NoEmptyLists(m)
    ensures RemoveConnection(Append(m, k, c), k, c).Ok?
    ensures multiset(ListOf(RemoveConnection(Append(m, k, c), k, c).value, k)) == multiset(ListOf(m, k))
    ensures c !in ListOf(m, k) ==> RemoveConnection(Append(m, k, c), k, c) == Ok(m)
  {
    var l := ListOf(m, k);
    var a := Append(m, k, c);
    assert a[k] == l + [c];
    assert c in a[k];
    var r := RemoveConnection(a, k, c).value;
    assert ListOf(r, k) == RemoveFirst(l + [c], c);
    assert multiset(l + [c]) - multiset{c} == multiset(l);
    if c !in l {
      if k in m {
        AppendThenRemoveKnown(m, k, c);
      } else {
        AppendThenRemoveUnknown(m, k, c);
      }
    }
  }

  /** The exception `send_json` raises on a failed send. */
  datatype SendError = SendFailed(connection: ConnId)

  class ConnectionManager {
    var activeConnections: Index

    ghost predicate Valid()
      reads this
    {
      NoEmptyLists(activeConnections)
    }

    constructor ()
      ensures Valid() && activeConnections == map[]
    {
      activeConnections := map[];
    }

    /** `connect`: appends `ws` to the user's list. */
    method Connect(ws: ConnId, userId: string)
      requires Valid()
      modifies this
      ensures Valid()
      ensures activeConnections == Append(old(activeConnections), userId, ws)
    {
      if userId !in activeConnections {
        activeConnections := activeConnections[userId := []];
      }
      activeConnections := activeConnections[userId := activeConnections[userId] + [ws]];
    }

    /** `disconnect`: removes one occurrence of `ws`, or raises and changes nothing. */
    method Disconnect(ws: ConnId, userId: string) returns (outcome: Outcome<DisconnectError>)
      requires Valid()
      modifies this
      ensures Valid()
      ensures match RemoveConnection(old(activeConnections), userId, ws)
        case Ok(m) => outcome == Pass && activeConnections == m
        case Err(e) => outcome == Fail(e) && activeConnections == old(activeConnections)
    {
      if userId in activeConnections {
        if ws !in activeConnections[userId] {
          return Fail(ValueError);
        }
        var rest := RemoveFirst(activeConnections[userId], ws);
        UpdateThenDelete(activeConnections, userId, rest);
        activeConnections := activeConnections[userId := rest];
        if rest == [] {
          activeConnections := activeConnections - {userId};
        }
      }
      outcome := Pass;
    }

    /** `send_notification`: sends to the user's connections in list order; the first
        failing send raises and the connections after it get no attempt. */
    method SendNotification(userId: string, failing: set<ConnId>)
      returns (attempts: seq<ConnId>, outcome: Outcome<SendError>)
      ensures var list := ListOf(activeConnections, userId);
        && |attempts| <= |list| && attempts == list[..|attempts|]
        && (forall i :: 0 <= i < |attempts| - 1 ==> attempts[i] !in failing)
        && (outcome.Pass? <==> forall c :: c in list ==> c !in failing)
        && (outcome.Pass? ==> attempts == list)
        && (outcome.Fail? ==> attempts != [] && attempts[|attempts| - 1] in failing
                              && outcome.error == SendFailed(attempts[|attempts| - 1]))
    {
      attempts := [];
      if userId in activeConnections {
        var list := activeConnections[userId];
        for i := 0 to |list|
          invariant attempts == list[..i]
          invariant forall j :: 0 <= j < i ==> list[j] !in failing
        {
          attempts := attempts + [list[i]];
          if list[i] in failing {
            return attempts, Fail(SendFailed(list[i]));
          }
        }
        assert attempts == list;
      }
      outcome := Pass;
    }
  }
}
