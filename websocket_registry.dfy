/** The WebSocket manager of the notification utilities: live connections indexed
    by user id and by department id, delivery to one index bucket, and the typed
    broadcast wrappers. */
module WebSocketRegistry {
  import opened Channels

  /** A caller's payload dict, passed through unexamined. */
  type Payload = map<string, string>

  /** A message field: a text value or a nested payload dict. */
  datatype Value = Text(text: string) | Data(payload: Payload)

  /** A message dict as handed to `send_json`. */
  type Message = map<string, Value>

  /** `{'type': tag, 'data': payload}`. */
  function Envelope(tag: string, payload: Payload): (m: Message)
    ensures m.Keys == {"type", "data"}
    ensures m["type"] == Text(tag) && m["data"] == Data(payload)
  {
    map["type" := Text(tag), "data" := Data(payload)]
  }

  /** `message['timestamp'] = now`: adds or replaces the timestamp and keeps every
      other field. */
  function Stamp(m: Message, now: string): (r: Message)
    ensures r.Keys == m.Keys + {"timestamp"}
    ensures r["timestamp"] == Text(now)
    ensures forall k :: k in m && k != "timestamp" ==> r[k] == m[k]
  {
    m["timestamp" := Text(now)]
  }

  /** One of the two indices: key to the set of connections registered under it. */
  type Index = map<int, set<ConnId>>

  /** The registry's invariant: a bucket that exists is not empty. */
  ghost predicate NoEmptyBuckets(m: Index)
  {
    forall k :: k in m ==> m[k] != {}
  }

  /** The connections under `k`; none when the bucket does not exist. */
  function BucketOf(m: Index, k: int): set<ConnId>
  {
    if k in m then m[k] else {}
  }

  /** Registering `c` under `k`: the bucket is created when missing and receives `c`;
      nothing else changes. */
  function AddToBucket(m: Index, k: int, c: ConnId): (r: Index)
    ensures r.Keys == m.Keys + {k}
    ensures r[k] == BucketOf(m, k) + {c}
    ensures forall j :: j in m && j != k ==> r[j] == m[j]
    ensures NoEmptyBuckets(m) ==> NoEmptyBuckets(r)
  {
    m[k := BucketOf(m, k) + {c}]
  }

  /** Unregistering `c` under `k`: `c` leaves the bucket, a bucket left empty is
      deleted, other keys are untouched, and an absent key or connection changes
      nothing in a registry that keeps its invariant. */
  function RemoveFromBucket(m: Index, k: int, c: ConnId): (r: Index)
    ensures BucketOf(r, k) == BucketOf(m, k) - {c}
    ensures r.Keys == if BucketOf(m, k) - {c} == {} then m.Keys - {k} else m.Keys
    ensures forall j :: j in m && j != k ==> j in r && r[j] == m[j]
    ensures NoEmptyBuckets(m) ==> NoEmptyBuckets(r)
    ensures NoEmptyBuckets(m) && c !in BucketOf(m, k) ==> r == m
  {
    if k in m then
      var rest := m[k] - {c};
      assert c !in m[k] ==> rest == m[k] && m[k := rest] == m;
      if rest == {} then m - {k} else m[k := rest]
    else
      m
  }

  /** Buckets are sets: registering a connection twice is registering it once. */
  lemma AddIdempotent(m: Index, k: int, c: ConnId)
    ensures AddToBucket(AddToBucket(m, k, c), k, c) == AddToBucket(m, k, c)
  {
  }

  /** Unregistering a connection that was just registered restores the index. */
  lemma AddThenRemove(m: Index, k: int, c: ConnId)
    requires NoEmptyBuckets(m) && c !in BucketOf(m, k)
    ensures RemoveFromBucket(AddToBucket(m, k, c), k, c) == m
  {
    var r := RemoveFromBucket(AddToBucket(m, k, c), k, c);
    assert BucketOf(AddToBucket(m, k, c), k) - {c} == BucketOf(m, k);
    assert r.Keys == m.Keys;
    assert forall j :: j in m ==> r[j] == m[j] by {
      forall j | j in m ensures r[j] == m[j] {
        if j == k {
          assert BucketOf(r, k) == m[k];
        }
      }
    }
  }

  /** `attempts` lists every connection of `bucket` exactly once. */
  ghost predicate Enumerates(attempts: seq<ConnId>, bucket: set<ConnId>)
  {
    && (forall c :: c in attempts <==> c in bucket)
    && (forall i, j :: 0 <= i < j < |attempts| ==> attempts[i] != attempts[j])
  }

  /** An enumeration makes exactly one attempt per connection. */
  lemma {:induction false} EnumerationSize(attempts: seq<ConnId>, bucket: set<ConnId>)
    requires Enumerates(attempts, bucket)
    ensures |attempts| == |bucket|
    decreases |attempts|
  {
    if attempts != [] {
      var c := attempts[|attempts| - 1];
      var front := attempts[..|attempts| - 1];
      assert forall x :: x in front ==> x != c by {
        forall x | x in front ensures x != c {
          var i :| 0 <= i < |front| && front[i] == x;
          assert attempts[i] == x;
        }
      }
      assert forall x :: x in front <==> x in bucket - {c} by {
        forall x ensures x in front <==> x in bucket - {c} {
          assert x in attempts <==> x in front || x == c by {
            assert attempts == front + [c];
          }
        }
      }
      EnumerationSize(front, bucket - {c});
    } else {
      assert forall c :: c !in bucket;
      assert bucket == {};
    }
  }

  /** The outcome of a delivery to bucket `key` of `index`: `sent` is what every
      connection was offered, each connection of the bucket got one attempt, and
      the ones that did not fail received it. With no bucket nothing is sent and the
      message is not stamped. */
  ghost predicate DeliveredAs(index: Index, key: int, message: Message, now: string, failing: set<ConnId>,
                              sent: Message, attempts: seq<ConnId>, delivered: set<ConnId>)
  {
    && (key in index ==> sent == Stamp(message, now))
    && (key !in index ==> sent == message && attempts == [])
    && Enumerates(attempts, BucketOf(index, key))
    && delivered == BucketOf(index, key) - failing
  }

  /** The `for connection in bucket: try send except log` loop. The iteration order of
      a set is unspecified, so the loop takes the connections in any order. */
  method Deliver(bucket: set<ConnId>, failing: set<ConnId>) returns (attempts: seq<ConnId>, delivered: set<ConnId>)
    ensures Enumerates(attempts, bucket)
    ensures delivered == bucket - failing
  {
    attempts, delivered := [], {};
    var remaining := bucket;
    while remaining != {}
      invariant remaining <= bucket
      invariant forall c :: c in attempts <==> c in bucket && c !in remaining
      invariant forall i, j :: 0 <= i < j < |attempts| ==> attempts[i] != attempts[j]
      invariant delivered == (bucket - remaining) - failing
      decreases remaining
    {
      var c :| c in remaining;
      attempts := attempts + [c];
      if c !in failing {
        delivered := delivered + {c};
      }
      remaining := remaining - {c};
    }
  }

  class WebSocketManager {
    /** Declared by the Python class and never used by any of its operations. */
    var activeConnections: map<string, seq<ConnId>>
    var userConnections: Index
    var departmentConnections: Index

    ghost predicate Valid()
      reads this
    {
      NoEmptyBuckets(userConnections) && NoEmptyBuckets(departmentConnections)
    }

    constructor ()
      ensures Valid()
      ensures activeConnections == map[] && userConnections == map[] && departmentConnections == map[]
    {
      activeConnections := map[];
      userConnections := map[];
      departmentConnections := map[];
    }

    /** `connect`: `ws` joins the bucket of its user and of its department. */
    method Connect(ws: ConnId, userId: int, departmentId: int)
      requires Valid()
      modifies this
      ensures Valid()
      ensures userConnections == AddToBucket(old(userConnections), userId, ws)
      ensures departmentConnections == AddToBucket(old(departmentConnections), departmentId, ws)
      ensures activeConnections == old(activeConnections)
    {
      if userId !in userConnections {
        userConnections := userConnections[userId := {}];
      }
      userConnections := userConnections[userId := userConnections[userId] + {ws}];
      if departmentId !in departmentConnections {
        departmentConnections := departmentConnections[departmentId := {}];
      }
      departmentConnections := departmentConnections[departmentId := departmentConnections[departmentId] + {ws}];
    }

    /** `disconnect`: `ws` leaves both buckets, emptied buckets are deleted; it never fails. */
    method Disconnect(ws: ConnId, userId: int, departmentId: int)
      requires Valid()
      modifies this
      ensures Valid()
      ensures userConnections == RemoveFromBucket(old(userConnections), userId, ws)
      ensures departmentConnections == RemoveFromBucket(old(departmentConnections), departmentId, ws)
      ensures activeConnections == old(activeConnections)
    {
      if userId in userConnections {
        userConnections := userConnections[userId := userConnections[userId] - {ws}];
        if userConnections[userId] == {} {
          userConnections := userConnections - {userId};
        }
      }
      if departmentId in departmentConnections {
        departmentConnections := departmentConnections[departmentId := departmentConnections[departmentId] - {ws}];
        if departmentConnections[departmentId] == {} {
          departmentConnections := departmentConnections - {departmentId};
        }
      }
    }

    /** `send_personal_message`: delivery to the user's bucket; `now` is the clock's
        reading and `failing` the connections whose send raises. */
    method SendPersonalMessage(message: Message, userId: int, now: string, failing: set<ConnId>)
      returns (sent: Message, attempts: seq<ConnId>, delivered: set<ConnId>)
      ensures DeliveredAs(userConnections, userId, message, now, failing, sent, attempts, delivered)
    {
      sent, attempts, delivered := message, [], {};
      if userId in userConnections {
        sent := Stamp(message, now);
        attempts, delivered := Deliver(userConnections[userId], failing);
      }
    }

    /** `broadcast_to_department`: delivery to the department's bucket. */
    method BroadcastToDepartment(message: Message, departmentId: int, now: string, failing: set<ConnId>)
      returns (sent: Message, attempts: seq<ConnId>, delivered: set<ConnId>)
      ensures DeliveredAs(departmentConnections, departmentId, message, now, failing, sent, attempts, delivered)
    {
      sent, attempts, delivered := message, [], {};
      if departmentId in departmentConnections {
        sent := Stamp(message, now);
        attempts, delivered := Deliver(departmentConnections[departmentId], failing);
      }
    }

    method BroadcastTaskUpdate(taskData: Payload, departmentId: int, now: string, failing: set<ConnId>)
      returns (sent: Message, attempts: seq<ConnId>, delivered: set<ConnId>)
      ensures DeliveredAs(departmentConnections, departmentId, Envelope("task_update", taskData), now, failing,
                          sent, attempts, delivered)
    {
      sent, attempts, delivered := BroadcastToDepartment(Envelope("task_update", taskData), departmentId, now, failing);
    }

    method BroadcastPerformanceUpdate(performanceData: Payload, departmentId: int, now: string, failing: set<ConnId>)
      returns (sent: Message, attempts: seq<ConnId>, delivered: set<ConnId>)
      ensures DeliveredAs(departmentConnections, departmentId, Envelope("performance_update", performanceData), now,
                          failing, sent, attempts, delivered)
    {
      sent, attempts, delivered :=
        BroadcastToDepartment(Envelope("performance_update", performanceData), departmentId, now, failing);
    }

    /** The one wrapper that goes to a user rather than a department. */
    method BroadcastNotification(notification: Payload, userId: int, now: string, failing: set<ConnId>)
      returns (sent: Message, attempts: seq<ConnId>, delivered: set<ConnId>)
      ensures DeliveredAs(userConnections, userId, Envelope("notification", notification), now, failing,
                          sent, attempts, delivered)
    {
      sent, attempts, delivered := SendPersonalMessage(Envelope("notification", notification), userId, now, failing);
    }

    method BroadcastSkillUpdate(skillData: Payload, departmentId: int, now: string, failing: set<ConnId>)
      returns (sent: Message, attempts: seq<ConnId>, delivered: set<ConnId>)
      ensures DeliveredAs(departmentConnections, departmentId, Envelope("skill_update", skillData), now, failing,
                          sent, attempts, delivered)
    {
      sent, attempts, delivered := BroadcastToDepartment(Envelope("skill_update", skillData), departmentId, now, failing);
    }

    method BroadcastLearningUpdate(learningData: Payload, departmentId: int, now: string, failing: set<ConnId>)
      returns (sent: Message, attempts: seq<ConnId>, delivered: set<ConnId>)
      ensures DeliveredAs(departmentConnections, departmentId, Envelope("learning_update", learningData), now,
                          failing, sent, attempts, delivered)
    {
      sent, attempts, delivered :=
        BroadcastToDepartment(Envelope("learning_update", learningData), departmentId, now, failing);
    }
  }
}
