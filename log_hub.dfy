/**
 * The live log hub of the server-sent-events route: a map from execution
 * phase id to the set of connected subscribers, with subscribe (GET),
 * broadcast and the per-subscriber cancel handler.
 *
 * A subscriber is a number drawn from a counter; what it has been sent is
 * its frame list. A subscriber whose stream has gone away is in
 * `disconnected`, and an enqueue to it throws. `JSON.stringify(log)` is the
 * `logJson` argument. The 30-second heartbeat is not part of this model.
 */
module LogHub {
  import opened Common
  import opened AppGraph

  /** The subscribers that stay after a broadcast: those whose enqueue did not throw. */
  function Keep(subs: seq<nat>, gone: set<nat>): (r: seq<nat>)
    ensures forall s :: s in r <==> s in subs && s !in gone
    ensures |r| <= |subs|
  {
    if subs == [] then []
    else
      var last := subs[|subs| - 1];
      assert forall s :: s in subs <==> s in subs[..|subs| - 1] || s == last;
      Keep(subs[..|subs| - 1], gone) + (if last in gone then [] else [last])
  }

  /** `set.delete(sub)` on an insertion-ordered set. */
  function Remove(subs: seq<nat>, sub: nat): (r: seq<nat>)
    ensures forall s :: s in r <==> s in subs && s != sub
  {
    if subs == [] then []
    else (if subs[0] == sub then [] else [subs[0]]) + Remove(subs[1..], sub)
  }

  /** A filtered set still has no repetitions. */
  lemma {:induction false} KeepDistinct(subs: seq<nat>, gone: set<nat>)
    requires Distinct(subs)
    ensures Distinct(Keep(subs, gone))
  {
    if subs != [] {
      var n := |subs| - 1;
      var front := subs[..n];
      assert Distinct(front);
      KeepDistinct(front, gone);
      if subs[n] !in gone {
        assert subs[n] !in front;
        DistinctAppend(Keep(front, gone), subs[n]);
      }
    }
  }

  lemma {:induction false} RemoveDistinct(subs: seq<nat>, sub: nat)
    requires Distinct(subs)
    ensures Distinct(Remove(subs, sub))
  {
    if subs != [] {
      assert Distinct(subs[1..]) by {
        assert forall a, b :: 0 <= a < b < |subs| - 1 ==> subs[1..][a] == subs[a + 1] && subs[1..][b] == subs[b + 1];
      }
      RemoveDistinct(subs[1..], sub);
      assert subs[0] !in subs[1..] by {
        forall k | 0 <= k < |subs| - 1 ensures subs[1..][k] != subs[0] {
          assert subs[1..][k] == subs[k + 1];
        }
      }
      var rest := Remove(subs[1..], sub);
      if subs[0] != sub {
        assert forall k :: 0 <= k < |rest| ==> ([subs[0]] + rest)[k + 1] == rest[k];
      }
    }
  }

  /** Cancelling a subscriber twice is the same as cancelling it once. */
  lemma {:induction false} RemoveIdempotent(subs: seq<nat>, sub: nat)
    ensures Remove(Remove(subs, sub), sub) == Remove(subs, sub)
  {
    if subs != [] {
      RemoveIdempotent(subs[1..], sub);
      var rest := Remove(subs[1..], sub);
      if subs[0] != sub {
        var once := [subs[0]] + rest;
        assert Remove(subs, sub) == once;
        assert once[0] == subs[0] && once[1..] == rest;
        assert Remove(once, sub) == [subs[0]] + Remove(rest, sub);
        assert Remove(rest, sub) == rest;
      } else {
        assert Remove(subs, sub) == rest;
      }
    }
  }

  /** Removing a subscriber that is not there changes nothing. */
  lemma {:induction false} RemoveAbsent(subs: seq<nat>, sub: nat)
    requires sub !in subs
    ensures Remove(subs, sub) == subs
  {
    if subs != [] {
      assert sub !in subs[1..];
      RemoveAbsent(subs[1..], sub);
      assert subs == [subs[0]] + subs[1..];
    }
  }

  /** The frame lists after one broadcast of `frame` to `subs`, in order, skipping the `gone` ones. */
  function Deliveries(frames: map<nat, seq<string>>, subs: seq<nat>, gone: set<nat>, frame: string): (r: map<nat, seq<string>>)
    requires forall s :: s in subs ==> s in frames
    ensures r.Keys == frames.Keys
  {
    if subs == [] then frames
    else
      var last := subs[|subs| - 1];
      var before := Deliveries(frames, subs[..|subs| - 1], gone, frame);
      if last in gone then before else before[last := before[last] + [frame]]
  }

  /** One more subscriber of the list: the filter and the frame lists grow by that subscriber alone. */
  lemma DeliverStep(frames: map<nat, seq<string>>, subs: seq<nat>, gone: set<nat>, frame: string, i: nat)
    requires forall s :: s in subs ==> s in frames
    requires i < |subs|
    ensures Keep(subs[..i + 1], gone) == Keep(subs[..i], gone) + (if subs[i] in gone then [] else [subs[i]])
    ensures var before := Deliveries(frames, subs[..i], gone, frame);
      Deliveries(frames, subs[..i + 1], gone, frame)
        == if subs[i] in gone then before else before[subs[i] := before[subs[i]] + [frame]]
  {
    assert subs[..i + 1][..i] == subs[..i];
  }

  /** The delivery loop of a broadcast, over the frame lists as a value. */
  method DeliverAll(frames: map<nat, seq<string>>, subs: seq<nat>, gone: set<nat>, frame: string)
    returns (fs: map<nat, seq<string>>, kept: seq<nat>)
    requires forall s :: s in subs ==> s in frames
    ensures kept == Keep(subs, gone)
    ensures fs == Deliveries(frames, subs, gone, frame)
  {
    fs := frames;
    kept := [];
    var i := 0;
    while i < |subs|
      invariant 0 <= i <= |subs|
      invariant kept == Keep(subs[..i], gone)
      invariant fs == Deliveries(frames, subs[..i], gone, frame)
    {
      var sub := subs[i];
      DeliverStep(frames, subs, gone, frame, i);
      if sub !in gone {
        fs := fs[sub := fs[sub] + [frame]];
        kept := kept + [sub];
      }
      i := i + 1;
    }
    assert subs[..i] == subs;
  }

  /** Each subscriber of a set without repetitions that is still connected gets the frame exactly once; nobody else gets anything. */
  lemma {:induction false} DeliveriesSpec(frames: map<nat, seq<string>>, subs: seq<nat>, gone: set<nat>, frame: string, s: nat)
    requires forall x :: x in subs ==> x in frames
    requires Distinct(subs) && s in frames
    ensures Deliveries(frames, subs, gone, frame)[s] == frames[s] + (if s in subs && s !in gone then [frame] else [])
  {
    if subs != [] {
      var n := |subs| - 1;
      var front := subs[..n];
      assert Distinct(front);
      assert forall x :: x in front ==> x in subs;
      DeliveriesSpec(frames, front, gone, frame, s);
      assert subs == front + [subs[n]];
      assert s in subs <==> s in front || s == subs[n];
      assert subs[n] !in front;
    }
  }

  function EventFrame(logJson: string): string {
    "data: " + logJson + "\n\n"
  }

  function ConnectedFrame(phaseId: string): string {
    ": connected to phase " + phaseId + "\n\n"
  }

  class Hub {
    var broadcasters: map<string, seq<nat>>
    var frames: map<nat, seq<string>>
    var disconnected: set<nat>
    var nextId: nat

    ghost predicate Valid()
      reads this
    {
      && (forall p :: p in broadcasters ==> Distinct(broadcasters[p]))
      && (forall p, s :: p in broadcasters && s in broadcasters[p] ==> s in frames)
      && (forall s :: s in frames ==> s < nextId)
    }

    constructor()
      ensures Valid()
      ensures broadcasters == map[] && frames == map[] && disconnected == {}
    {
      broadcasters := map[];
      frames := map[];
      disconnected := {};
      nextId := 0;
    }

    /** `getOrCreateBroadcaster`: adds an empty set only for a phase id not yet present. */
    method GetOrCreate(phaseId: string) returns (subs: seq<nat>)
      requires Valid()
      modifies this
      ensures Valid()
      ensures phaseId in old(broadcasters) ==> broadcasters == old(broadcasters) && subs == old(broadcasters)[phaseId]
      ensures phaseId !in old(broadcasters) ==> broadcasters == old(broadcasters)[phaseId := []] && subs == []
      ensures frames == old(frames) && disconnected == old(disconnected) && nextId == old(nextId)
    {
      if phaseId !in broadcasters {
        broadcasters := broadcasters[phaseId := []];
      }
      subs := broadcasters[phaseId];
    }

    /**
     * `broadcastLogToPhase`: nothing for a phase with no set or an empty
     * set; otherwise one event frame to every subscriber whose enqueue
     * succeeds, and every subscriber whose enqueue throws leaves the set.
     */
    method Broadcast(phaseId: string, logJson: string)
      requires Valid()
      modifies this
      ensures Valid()
      ensures phaseId !in old(broadcasters) || old(broadcasters)[phaseId] == [] ==>
        broadcasters == old(broadcasters) && frames == old(frames)
      ensures phaseId in old(broadcasters) && old(broadcasters)[phaseId] != [] ==>
        broadcasters == old(broadcasters)[phaseId := Keep(old(broadcasters)[phaseId], disconnected)]
      ensures frames.Keys == old(frames).Keys
      ensures phaseId in old(broadcasters) ==> forall s :: s in frames ==>
        frames[s] == old(frames)[s] + (if s in old(broadcasters)[phaseId] && s !in disconnected then [EventFrame(logJson)] else [])
      ensures disconnected == old(disconnected) && nextId == old(nextId)
    {
      if phaseId !in broadcasters || broadcasters[phaseId] == [] {
        return;
      }
      var subs := broadcasters[phaseId];
      var kept := Deliver(subs, EventFrame(logJson));
      forall s | s in frames
        ensures frames[s] == old(frames)[s] + (if s in subs && s !in disconnected then [EventFrame(logJson)] else [])
      {
        DeliveriesSpec(old(frames), subs, disconnected, EventFrame(logJson), s);
      }
      KeepDistinct(subs, disconnected);
      broadcasters := broadcasters[phaseId := kept];
    }

    /** The loop of `broadcastLogToPhase`: enqueue `frame` to each subscriber in set order, dropping those whose enqueue throws. */
    method Deliver(subs: seq<nat>, frame: string) returns (kept: seq<nat>)
      requires forall s :: s in subs ==> s in frames
      modifies this
      ensures kept == Keep(subs, disconnected)
      ensures frames == Deliveries(old(frames), subs, disconnected, frame)
      ensures broadcasters == old(broadcasters) && disconnected == old(disconnected) && nextId == old(nextId)
    {
      var fs;
      fs, kept := DeliverAll(frames, subs, disconnected, frame);
      frames := fs;
    }

    /**
     * `GET /api/ws?phaseId=…`: 400 and nothing added without a phase id;
     * otherwise one new subscriber, whose first frame is the connected
     * comment, in that phase's set.
     */
    method Subscribe(phaseId: Option<string>) returns (status: nat, sub: Option<nat>)
      requires Valid()
      modifies this
      ensures Valid()
      ensures phaseId.None? || phaseId.value == "" ==>
        status == 400 && sub.None? && broadcasters == old(broadcasters) && frames == old(frames)
      ensures phaseId.Some? && phaseId.value != "" ==>
        && status == 200 && sub == Some(old(nextId))
        && sub.value !in old(frames)
        && frames == old(frames)[sub.value := [ConnectedFrame(phaseId.value)]]
        && broadcasters == old(broadcasters)[phaseId.value :=
             (if phaseId.value in old(broadcasters) then old(broadcasters)[phaseId.value] else []) + [sub.value]]
      ensures disconnected == old(disconnected)
    {
      if phaseId.None? || phaseId.value == "" {
        return 400, None;
      }
      var id := phaseId.value;
      var subs := GetOrCreate(id);
      forall s | s in subs
        ensures s < nextId
      {
        assert s in broadcasters[id] && s in frames;
      }
      var newSub := nextId;
      nextId := nextId + 1;
      frames := frames[newSub := [ConnectedFrame(id)]];
      assert newSub !in subs;
      DistinctAppend(subs, newSub);
      broadcasters := broadcasters[id := subs + [newSub]];
      return 200, Some(newSub);
    }

    /** The cancel handler: removes only that subscriber and closes its stream; phase keys stay. */
    method Cancel(phaseId: string, sub: nat)
      requires Valid() && phaseId in broadcasters
      modifies this
      ensures Valid()
      ensures broadcasters == old(broadcasters)[phaseId := Remove(old(broadcasters)[phaseId], sub)]
      ensures broadcasters.Keys == old(broadcasters).Keys
      ensures disconnected == old(disconnected) + {sub}
      ensures frames == old(frames) && nextId == old(nextId)
    {
      RemoveDistinct(broadcasters[phaseId], sub);
      broadcasters := broadcasters[phaseId := Remove(broadcasters[phaseId], sub)];
      disconnected := disconnected + {sub};
    }

    /**
     * `POST /api/ws` with body `{ phaseId, log }`: 400 and no change when
     * either is missing or falsy (`logJson` is `None` for a falsy `log`,
     * otherwise its `JSON.stringify`); otherwise the same broadcast as above and
     * 200. An unreadable body (the 500 answer) is not part of this model.
     */
    method Post(phaseId: Option<string>, logJson: Option<string>) returns (status: nat)
      requires Valid()
      modifies this
      ensures Valid()
      ensures phaseId.None? || phaseId.value == "" || logJson.None? ==>
        status == 400 && broadcasters == old(broadcasters) && frames == old(frames)
      ensures phaseId.Some? && phaseId.value != "" && logJson.Some? ==>
        && status == 200
        && frames.Keys == old(frames).Keys
        && (phaseId.value in old(broadcasters) ==> forall s :: s in frames ==>
              frames[s] == old(frames)[s] + (if s in old(broadcasters)[phaseId.value] && s !in disconnected then [EventFrame(logJson.value)] else []))
        && (phaseId.value !in old(broadcasters) ==> broadcasters == old(broadcasters) && frames == old(frames))
      ensures disconnected == old(disconnected) && nextId == old(nextId)
    {
      if phaseId.None? || phaseId.value == "" || logJson.None? {
        return 400;
      }
      Broadcast(phaseId.value, logJson.value);
      return 200;
    }

    /** A client that goes away without the cancel handler running: later enqueues to it throw. */
    method Disconnect(sub: nat)
      requires Valid()
      modifies this
      ensures Valid()
      ensures disconnected == old(disconnected) + {sub}
      ensures broadcasters == old(broadcasters) && frames == old(frames) && nextId == old(nextId)
    {
      disconnected := disconnected + {sub};
    }
  }
}
