/** What every step keeps of a region: its counters, its workers and its timelines. */
module ComposeQueue {
  import opened ComposePost

  function BusyWorkers(g: Region): set<nat>
  {
    set w | w in g.workers && !g.workers[w].Resting?
  }

  /** Some message that has been received is about this post, with this time. */
  ghost predicate Announced(g: Region, postId: int, ts: int)
    requires g.received <= |g.sent|
  {
    exists k :: 0 <= k < g.received && g.sent[k].postId == postId && g.sent[k].timestamp == ts
  }

  ghost predicate WasReceived(g: Region, m: Message)
    requires g.received <= |g.sent|
  {
    exists k :: 0 <= k < g.received && g.sent[k] == m
  }

  /** Every message received was given up, found inconsistent or worked off, or a worker is at it. */
  ghost predicate Balanced(g: Region)
  {
    g.received <= |g.sent| && g.inconsistent + g.failed + g.done + |BusyWorkers(g)| == g.received
  }

  ghost predicate WorkOk(g: Region, k: Work)
    requires g.received <= |g.sent|
  {
    match k
    case Resting => true
    case Received(m) => WasReceived(g, m)
    case Fanning(m, all, left) =>
      WasReceived(g, m) && Found(g.replica, m.postId) && left <= all && (forall u :: u in m.mentionIds ==> u in all) &&
      forall u :: u in all - left ==> m.postId in Entries(g.timelines, u)
  }

  /** A post stands in a timeline only if the region has it and a message has announced it with that time. */
  ghost predicate EntriesOk(g: Region)
    requires g.received <= |g.sent|
  {
    forall u, i :: i in Entries(g.timelines, u) ==> Found(g.replica, i) && Announced(g, i, Entries(g.timelines, u)[i])
  }

  ghost predicate AllWorkOk(g: Region)
    requires g.received <= |g.sent|
  {
    forall w :: w in g.workers ==> WorkOk(g, g.workers[w])
  }

  ghost predicate RegionOk(g: Region)
  {
    Balanced(g) && AllWorkOk(g) && EntriesOk(g)
  }

  /** More messages, received messages, copies and entries do no harm. */
  ghost predicate Grows(g: Region, g': Region)
  {
    g.received <= g'.received <= |g'.sent| && g.sent <= g'.sent && g.replica <= g'.replica &&
    forall u, i :: i in Entries(g.timelines, u) ==> i in Entries(g'.timelines, u)
  }

  lemma WorkGrows(g: Region, g': Region, k: Work)
    requires g.received <= |g.sent| && Grows(g, g') && WorkOk(g, k)
    ensures WorkOk(g', k)
  {
    if !k.Resting? {
      var i :| 0 <= i < g.received && g.sent[i] == k.msg;
      assert g'.sent[i] == k.msg;
    }
  }

  lemma StillThere(g: Region, g': Region, i: int, ts: int)
    requires g.received <= |g.sent| && Grows(g, g') && Found(g.replica, i) && Announced(g, i, ts)
    ensures Found(g'.replica, i) && Announced(g', i, ts)
  {
    var k :| 0 <= k < g.received && g.sent[k].postId == i && g.sent[k].timestamp == ts;
    assert g'.sent[k] == g.sent[k];
  }

  lemma EntriesGrow(g: Region, g': Region)
    requires g.received <= |g.sent| && Grows(g, g') && EntriesOk(g) && g'.timelines == g.timelines
    ensures EntriesOk(g')
  {
    forall u, i | i in Entries(g'.timelines, u) ensures Found(g'.replica, i) &&
      Announced(g', i, Entries(g'.timelines, u)[i]) {
      assert i in Entries(g.timelines, u) && Found(g.replica, i) && Announced(g, i, Entries(g.timelines, u)[i]);
      StillThere(g, g', i, Entries(g.timelines, u)[i]);
    }
  }

  /** One worker does something else, and the rest only grows. */
  lemma WorkersOk(g: Region, g': Region, w: nat, k: Work)
    requires g.received <= |g.sent| && Grows(g, g') && AllWorkOk(g) && g'.workers == g.workers[w := k] && WorkOk(g', k)
    ensures AllWorkOk(g')
  {
    GrowsBounds(g, g');
    hide WorkOk, Grows;
    forall v | v in g'.workers ensures WorkOk(g', g'.workers[v]) {
      if v != w { WorkGrows(g, g', g.workers[v]); }
    }
  }

  lemma GrowsBounds(g: Region, g': Region)
    requires Grows(g, g')
    ensures g'.received <= |g'.sent|
  {
  }

  /** The number of busy workers when one of them starts, stops or goes on. */
  lemma BusyChanges(g: Region, g': Region, w: nat, k: Work)
    requires w in g.workers && g'.workers == g.workers[w := k]
    ensures |BusyWorkers(g')| == |BusyWorkers(g)| - (if g.workers[w].Resting? then 0 else 1) + (if k.Resting? then 0
      else 1)
  {
    var others := BusyWorkers(g) - {w};
    assert BusyWorkers(g') == if k.Resting? then others else others + {w};
    assert BusyWorkers(g) == if g.workers[w].Resting? then others else others + {w};
  }

  lemma QueueGrows(g: Region, m: Message)
    requires RegionOk(g)
    ensures RegionOk(g.(sent := g.sent + [m]))
  {
    var g' := g.(sent := g.sent + [m]);
    EntriesGrow(g, g');
    assert BusyWorkers(g') == BusyWorkers(g);
    forall w | w in g'.workers ensures WorkOk(g', g'.workers[w]) {
      WorkGrows(g, g', g.workers[w]);
    }
  }

  lemma ReplicaGrows(g: Region, p: Post)
    requires RegionOk(g)
    ensures RegionOk(g.(replica := g.replica + {p}))
  {
    var g' := g.(replica := g.replica + {p});
    EntriesGrow(g, g');
    assert BusyWorkers(g') == BusyWorkers(g);
    forall w | w in g'.workers ensures WorkOk(g', g'.workers[w]) {
      WorkGrows(g, g', g.workers[w]);
    }
  }

  lemma ReceiveOk(g: Region, w: nat)
    requires RegionOk(g) && w in g.workers && g.workers[w].Resting? && g.received < |g.sent|
    ensures RegionOk(ReceiveOne(g, w))
  {
    var k := Received(g.sent[g.received]);
    var g' := ReceiveOne(g, w);
    assert WasReceived(g', k.msg);
    EntriesGrow(g, g');
    BusyChanges(g, g', w, k);
    WorkersOk(g, g', w, k);
    hide BusyWorkers, AllWorkOk, EntriesOk;
  }

  /** A worker that is done with its message, in whichever way. */
  lemma RestOk(g: Region, g': Region, w: nat)
    requires RegionOk(g) && w in g.workers && !g.workers[w].Resting? && g'.workers == g.workers[w := Resting]
    requires g'.sent == g.sent && g'.received == g.received && g'.replica == g.replica && g'.timelines == g.timelines
    requires g'.inconsistent + g'.failed + g'.done == g.inconsistent + g.failed + g.done + 1
    ensures RegionOk(g')
  {
    assert Grows(g, g');
    EntriesGrow(g, g');
    BusyChanges(g, g', w, Resting);
    WorkersOk(g, g', w, Resting);
    hide BusyWorkers, AllWorkOk, EntriesOk;
  }

  lemma LookUpOk(g: Region, w: nat, usable: bool, graph: bool, followers: set<int>)
    requires RegionOk(g) && w in g.workers && g.workers[w].Received?
    ensures RegionOk(LookUpPost(g, w, usable, graph, followers))
  {
    var g', m := LookUpPost(g, w, usable, graph, followers), g.workers[w].msg;
    if usable && Found(g.replica, m.postId) && graph {
      var all := followers + (set u | u in m.mentionIds);
      var k := Fanning(m, all, all);
      assert g' == g.(workers := g.workers[w := k]);
      assert WorkOk(g, g.workers[w]);
      assert WorkOk(g', k);
      EntriesGrow(g, g');
      BusyChanges(g, g', w, k);
      WorkersOk(g, g', w, k);
      hide BusyWorkers, AllWorkOk, EntriesOk;
    } else {
      RestOk(g, g', w);
    }
  }

  lemma AddOk(g: Region, w: nat, u: int, answers: bool)
    requires RegionOk(g) && w in g.workers && g.workers[w].Fanning? && u in g.workers[w].left
    ensures RegionOk(AddOne(g, w, u, answers))
  {
    var g', m := AddOne(g, w, u, answers), g.workers[w].msg;
    if answers {
      var k := Fanning(m, g.workers[w].all, g.workers[w].left - {u});
      assert WorkOk(g, g.workers[w]);
      EntryAdded(g, g', m, u);
      WorkGrows(g, g', g.workers[w]);
      assert WorkOk(g', k);
      BusyChanges(g, g', w, k);
      WorkersOk(g, g', w, k);
      AddedEntryOk(g, g', m, u);
      hide BusyWorkers, AllWorkOk, EntriesOk;
    } else {
      RestOk(g, g', w);
    }
  }

  lemma AddedEntryOk(g: Region, g': Region, m: Message, u: int)
    requires g.received <= |g.sent| && EntriesOk(g) && WasReceived(g, m) && Found(g.replica, m.postId)
    requires g'.timelines == AddEntry(g.timelines, u, m.postId, m.timestamp)
    requires g'.sent == g.sent && g'.received == g.received && g'.replica == g.replica
    ensures EntriesOk(g')
  {
    EntryAdded(g, g', m, u);
    assert Announced(g, m.postId, m.timestamp);
    forall v, i | i in Entries(g'.timelines, v) ensures Found(g'.replica, i) &&
      Announced(g', i, Entries(g'.timelines, v)[i]) {
      var ts := Entries(g'.timelines, v)[i];
      if i in Entries(g.timelines, v) {
        EntryIs(g, v, i);
        assert ts == Entries(g.timelines, v)[i];
      } else {
        assert v == u && i == m.postId && ts == m.timestamp;
      }
      StillThere(g, g', i, ts);
    }
  }

  lemma EntryIs(g: Region, u: int, i: int)
    requires g.received <= |g.sent| && EntriesOk(g) && i in Entries(g.timelines, u)
    ensures Found(g.replica, i) && Announced(g, i, Entries(g.timelines, u)[i])
  {
  }

  lemma EntryAdded(g: Region, g': Region, m: Message, u: int)
    requires g.received <= |g.sent|
    requires g'.timelines == AddEntry(g.timelines, u, m.postId, m.timestamp)
    requires g'.sent == g.sent && g'.received == g.received && g'.replica == g.replica
    ensures Grows(g, g') && m.postId in Entries(g'.timelines, u)
  {
  }

  lemma EndOk(g: Region, w: nat)
    requires RegionOk(g) && w in g.workers && g.workers[w].Fanning?
    ensures RegionOk(EndOne(g, w))
  {
    RestOk(g, EndOne(g, w), w);
  }
}
