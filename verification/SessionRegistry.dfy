/** The sessions of the headless HTTP server, bounded by age and by number. */
module SessionRegistry {

  /** Sessions by id with their last access, and the backend each one was given; backends are
      numbered as they are created. */
  class Registry {
    var seen: map<string, int>
    var backends: map<string, nat>
    var created: nat
    const maxIdle: int
    const maxItems: int

    ghost predicate Valid()
      reads this
    {
      && backends.Keys == seen.Keys
      && "" !in seen
      && forall id <- backends :: backends[id] < created
    }

    constructor (maxIdle: int, maxItems: int)
      ensures Valid() && seen == map[] && this.maxIdle == maxIdle && this.maxItems == maxItems
    {
      this.maxIdle, this.maxItems := maxIdle, maxItems;
      seen, backends, created := map[], map[], 0;
    }

    method Evict(id: string)
      requires Valid()
      modifies this`seen, this`backends
      ensures Valid()
      ensures seen == old(seen) - {id} && backends == old(backends) - {id}
    {
      backends := backends - {id};
      seen := seen - {id};
    }

    /** Reclaims the sessions idle past the limit, other than this one. */
    method ReclaimIdle(id: string, now: int)
      requires Valid()
      modifies this`seen, this`backends
      ensures Valid()
      ensures seen == map s | s in old(seen) && (s == id || now - old(seen)[s] <= maxIdle) :: old(seen)[s]
      ensures backends == map s | s in seen :: old(backends)[s]
      ensures Within(backends, old(backends))
    {
      var pending := seen.Keys;
      while pending != {}
        invariant Valid() && pending <= seen.Keys
        invariant seen == map s | s in old(seen) && (s in pending || s == id || now - old(seen)[s] <= maxIdle) :: old(seen)[s]
        invariant backends == map s | s in seen :: old(backends)[s]
      {
        var sid :| sid in pending;
        pending := pending - {sid};
        if sid != id && now - seen[sid] > maxIdle {
          Evict(sid);
        }
      }
    }

    /** The least recently used of the other sessions, or "". */
    method Oldest(id: string, now: int) returns (oldest: string)
      requires Valid()
      ensures oldest == "" <==> seen.Keys <= {id}
      ensures oldest != "" ==> oldest in seen && oldest != id && forall s <- seen | s != id :: seen[oldest] <= seen[s]
    {
      var oldestAt := now;
      oldest := "";
      var pending := seen.Keys;
      while pending != {}
        invariant pending <= seen.Keys
        invariant oldest == "" <==> forall s <- seen :: s in pending || s == id
        invariant oldest != "" ==> oldest in seen && oldest != id && oldestAt == seen[oldest]
        invariant oldest != "" ==> forall s <- seen | s !in pending && s != id :: oldestAt <= seen[s]
      {
        var sid :| sid in pending;
        pending := pending - {sid};
        if sid == id {
          continue;
        }
        if oldest == "" || seen[sid] < oldestAt {
          oldest, oldestAt := sid, seen[sid];
        }
      }
    }

    /** Evicts the least recently used of the other sessions until the number is within bounds. */
    method EnforceCap(id: string, now: int)
      requires Valid() && id in seen
      modifies this`seen, this`backends
      ensures Valid() && id in seen
      ensures Within(seen, old(seen)) && Within(backends, old(backends))
      ensures |seen| <= (if maxItems > 1 then maxItems else 1)
      ensures seen != old(seen) ==> |seen| == if maxItems > 1 then maxItems else 1
      ensures LastUsedStay(old(seen), seen, id)
    {
      while |seen| > maxItems
        invariant Valid() && id in seen
        invariant Within(seen, old(seen)) && Within(backends, old(backends))
        invariant |seen| >= (if maxItems > 1 then maxItems else 1) || seen == old(seen)
        invariant LastUsedStay(old(seen), seen, id)
        decreases |seen|
      {
        var oldest := Oldest(id, now);
        if oldest == "" {
          assert seen.Keys == {id} && |seen| == |seen.Keys|;
          break;
        }
        OneFewer(old(seen), seen, id, oldest);
        Evict(oldest);
      }
      assert id in seen.Keys && |seen| == |seen.Keys|;
    }

    /** Records an access: the idle sessions go, this one is created if it is new, and the
        least recently used go while there are too many. */
    method Touch(id: string, now: int)
      requires Valid() && id != ""
      modifies this
      ensures Valid()
      // this session is there, with the backend it had
      ensures id in seen && seen[id] == now
      ensures backends[id] == if id in old(seen) then old(backends)[id] else old(created)
      // of the others, the ones that stay are as before, in number and in age within bounds
      ensures Within(seen - {id}, old(seen)) && Within(backends - {id}, old(backends))
      ensures |seen| <= if maxItems > 1 then maxItems else 1
      ensures forall s <- seen | s != id :: now - seen[s] <= maxIdle
      // and those that went were idle, or last used before those that stay, to make room
      ensures LastUsedStay(old(seen) - {id}, seen, id)
      ensures (exists s <- old(seen) :: s !in seen && now - old(seen)[s] <= maxIdle) ==> |seen| == if maxItems > 1 then maxItems else 1
      ensures created == old(created) + if id in old(seen) then 0 else 1
    {
      hide Within, LastUsedStay;
      ReclaimIdle(id, now);
      ghost var recent, kept := seen, backends;
      if id !in seen {
        backends := backends[id := created];
        created := created + 1;
      }
      seen := seen[id := now];
      EnforceCap(id, now);
      IdleOrLastUsed(old(seen), recent, seen, id, now, maxIdle);
      StillWithin(old(backends), kept, backends, id, old(created));
    }
  }

  /** Some of the entries of a map. */
  ghost predicate Within<V>(some: map<string, V>, all: map<string, V>) {
    forall k <- some :: k in all && some[k] == all[k]
  }

  /** What went was last used no later than what stays, apart from the session itself. */
  ghost predicate LastUsedStay(before: map<string, int>, after: map<string, int>, id: string) {
    forall gone <- before, s <- after | gone !in after && s != id :: before[gone] <= after[s]
  }

  /** Dropping the idle sessions and then the last used: what stays, and what went. */
  lemma IdleOrLastUsed(before: map<string, int>, recent: map<string, int>, after: map<string, int>, id: string, now: int, maxIdle: int)
    requires recent == map s | s in before && (s == id || now - before[s] <= maxIdle) :: before[s]
    requires Within(after, recent[id := now]) && LastUsedStay(recent[id := now], after, id) && id in after
    ensures after[id] == now && Within(after - {id}, before)
    ensures forall s <- after | s != id :: now - after[s] <= maxIdle
    ensures LastUsedStay(before - {id}, after, id)
    ensures (exists s <- before :: s !in after && now - before[s] <= maxIdle) ==> after != recent[id := now]
  {
    forall gone <- before - {id}, s <- after | gone !in after && s != id ensures before[gone] <= after[s] {
      if gone in recent {
        assert gone in recent[id := now];
      }
    }
  }

  lemma StillWithin(before: map<string, nat>, recent: map<string, nat>, after: map<string, nat>, id: string, fresh_: nat)
    requires Within(recent, before)
    requires Within(after, if id in recent then recent else recent[id := fresh_])
    ensures Within(after - {id}, before)
    ensures id in after ==> after[id] == if id in recent then recent[id] else fresh_
  {
  }

  lemma OneFewer(before: map<string, int>, now: map<string, int>, id: string, oldest: string)
    requires Within(now, before) && LastUsedStay(before, now, id)
    requires oldest in now && forall s <- now | s != id :: now[oldest] <= now[s]
    ensures Within(now - {oldest}, before) && LastUsedStay(before, now - {oldest}, id)
    ensures |now - {oldest}| == |now| - 1
  {
    var rest := now - {oldest};
    assert now.Keys == rest.Keys + {oldest};
    assert |now.Keys| == |now| && |rest.Keys| == |rest|;
  }
}
