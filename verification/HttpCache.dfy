/**
The slotted cache of validated HTTP responses
(internal/investigation/collect/cache.go, and the conditional GET of client.go).
*/
module HttpCache {
  import opened Wrappers

  /** The SHA-256 of source, endpoint and credential; equal keys mean equal requests. */
  datatype Key = Key(firstByte: nat, rest: nat)

  datatype Entry = Entry(etag: string, link: string, body: string)

  const EMPTY := Entry("", "", "")

  /** What a slot of the store holds; a tombstone has no key, and `intact` is the stored digest's verdict. */
  datatype Persisted = Persisted(key: Option<Key>, entry: Entry, intact: bool)

  /**
  What becomes of one attempt: an error of its own (a wait, a hold, an audit or the pacing fails), no answer, or
  an answer, which may echo the credential, break off, be a rate limit in disguise, or ask for a long wait.
  */
  datatype Reply =
    | Stopped
    | NoAnswer
    | Reply(status: int, etag: string, link: string, body: string,
            echoes: bool, broken: bool, limited: bool, longWait: bool)

  /** `sent` is the entity tag the answered request carried; `fromCache` marks a 304 answered locally. */
  datatype Outcome =
    | Served(body: string, sent: string, fromCache: bool)
    | Status(status: int)
    | CacheCorrupt
    | CacheEchoed
    | SaveFailed
    | Failed
    | Unavailable
    | RateLimited
    | NoRepresentation
    | Exhausted

  const SLOTS := 64
  const MAX_BODY := 1024 * 1024
  const MAX_RESPONSE := 10 * 1024 * 1024
  const MAX_PERSISTED := 256 * 1024
  const MAX_SIZE := 32 * 1024 * 1024
  const MAX_ENTRIES := 128
  const ATTEMPTS := 4

  function Slot(k: Key): nat {
    k.firstByte % SLOTS
  }

  predicate Persistable(e: Entry) {
    |e.body| <= MAX_PERSISTED && |e.etag| <= 512 && |e.link| <= 4096
  }

  predicate Good(status: int) {
    200 <= status < 300
  }

  /** An answer whose body may be stored and served. */
  predicate Usable(r: Reply) {
    r.Reply? && !r.echoes && !r.broken && |r.body| <= MAX_RESPONSE && Good(r.status)
  }

  predicate Retriable(status: int) {
    status == 429 || status >= 500
  }

  // ----- What an answer leads to -----

  /** An answer that was read to its end, is not too long and does not echo the credential. */
  predicate Whole(r: Reply) {
    r.Reply? && !r.echoes && !r.broken && |r.body| <= 10_485_760
  }

  /** Another attempt follows unless this was the fourth: no answer, a 304 to a plain request, or a short wait. */
  predicate GoesOn(r: Reply, sent: string) {
    || r.NoAnswer?
    || (Whole(r) && r.status == 304 && sent == "")
    || (Whole(r) && (r.status == 429 || r.status >= 500) && !r.longWait)
  }

  /** A body that is kept for the next request. */
  predicate Storable(r: Reply) {
    Whole(r) && 200 <= r.status < 300 && r.etag != "" && |r.body| <= 1_048_576
  }

  /** What the deciding answer means; the request carried `sent`, the entity tag of the body `kept`. */
  predicate Means(r: Reply, last: bool, sent: string, kept: string, saveFails: bool, outcome: Outcome) {
    if r.Stopped? then outcome == Failed
    else if r.NoAnswer? then outcome == Unavailable
    else if r.echoes then
      outcome == if r.status == 401 || r.status == 403 then Status(r.status) else Unavailable
    else if !Whole(r) then outcome == Unavailable
    else if r.status == 304 then outcome == if sent != "" then Served(kept, sent, true) else NoRepresentation
    else if 200 <= r.status < 300 then
      outcome == if Storable(r) && saveFails then SaveFailed else Served(r.body, sent, false)
    else if r.status == 403 && r.limited then outcome == RateLimited
    else if (r.status == 429 || r.status >= 500) && !last then outcome == RateLimited
    else outcome == Status(r.status)
  }

  // ----- The summed length of the bodies in memory -----

  ghost function Total(m: map<Key, Entry>): nat
    decreases |m|
  {
    if m == map[] then 0
    else
      var k :| k in m;
      |m[k].body| + Total(m - {k})
  }

  lemma {:induction false} TotalWithout(m: map<Key, Entry>, k: Key)
    requires k in m
    ensures Total(m) == |m[k].body| + Total(m - {k})
    decreases |m|
  {
    var j :| j in m && Total(m) == |m[j].body| + Total(m - {j});
    if j != k {
      TotalWithout(m - {j}, k);
      TotalWithout(m - {k}, j);
      assert m - {j} - {k} == m - {k} - {j};
    }
  }

  lemma TotalWith(m: map<Key, Entry>, k: Key, e: Entry)
    ensures Total(m[k := e]) == |e.body| + Total(m - {k})
  {
    TotalWithout(m[k := e], k);
    assert m[k := e] - {k} == m - {k};
  }

  /** Total does not depend on which entry is counted first. */
  lemma TotalReplaced(m: map<Key, Entry>, k: Key, e: Entry)
    ensures Total(m[k := e]) == Total(m) - (if k in m then |m[k].body| else 0) + |e.body|
  {
    TotalWith(m, k, e);
    if k in m { TotalWithout(m, k); } else { assert m - {k} == m; }
  }

  ghost predicate Received(key: Key, replies: seq<Reply>, p: (Key, Entry)) {
    exists n | 0 <= n < |replies| :: Usable(replies[n])
      && p == (key, Entry(replies[n].etag, replies[n].link, replies[n].body))
  }

  class Cache {
    var mem: map<Key, Entry>
    var size: int
    var disk: map<nat, Persisted>
    const persistent: bool
    /** History: every key and entry ever saved together, by any process. */
    ghost var saved: set<(Key, Entry)>

    /** Whatever a lookup can return was saved, as a whole, under the key it is looked up by. */
    ghost predicate Sound()
      reads this
    {
      && (forall k | k in mem :: (k, mem[k]) in saved)
      && (forall n | n in disk :: disk[n].intact ==> PairSaved(disk[n]))
    }

    ghost predicate PairSaved(p: Persisted)
      reads this
    {
      p.key.Some? ==> (p.key.value, p.entry) in saved
    }

    /** The key's slot holds a response that was saved under this very key. */
    predicate InSlot(key: Key)
      reads this
    {
      persistent && key.firstByte % 64 in disk && disk[key.firstByte % 64].key == Some(key)
    }

    /** How far the size counter is behind the bodies in memory. */
    ghost function Drift(): int
      reads this
    {
      Total(mem) - size
    }

    constructor (persistent: bool)
      ensures Sound() && Drift() == 0 && mem == map[] && disk == map[] && this.persistent == persistent
    {
      mem, size, disk, saved := map[], 0, map[], {};
      this.persistent := persistent;
    }

    /** Another process saves a response: any slot, any key, the same writing rule. */
    method SavedElsewhere(key: Key, entry: Entry)
      requires Sound()
      modifies this`disk, this`saved
      ensures Sound() && saved == old(saved) + {(key, entry)}
      ensures disk == old(disk)[key.firstByte % 64 := Persisted(Some(key), entry, true)]
    {
      saved := saved + {(key, entry)};
      disk := disk[Slot(key) := Persisted(Some(key), entry, true)];
    }

    method Load(key: Key) returns (found: Option<Entry>)
      requires Sound()
      modifies this`mem, this`size
      ensures Sound() && Drift() == old(Drift())
      ensures found.Some? ==> found.value == EMPTY || (key, found.value) in saved
      ensures found.Some? && found.value != EMPTY ==> mem == old(mem)[key := found.value]
      ensures found == None || found.value == EMPTY ==> mem == old(mem) && size == old(size)
      ensures key in old(mem) ==> found == Some(old(mem)[key])
      ensures key !in old(mem) && !InSlot(key) ==> found == Some(EMPTY)
      ensures key !in old(mem) && InSlot(key) ==>
        var p := disk[key.firstByte % 64];
        found == if p.entry.etag != "" && |p.entry.etag| <= 512 && |p.entry.link| <= 4096
                    && |p.entry.body| <= 262_144 && p.intact
                 then Some(p.entry) else None
    {
      if key in mem {
        assert mem == mem[key := mem[key]];
        return Some(mem[key]);
      }
      if !persistent || Slot(key) !in disk {
        return Some(EMPTY);
      }
      var p := disk[Slot(key)];
      if p.key != Some(key) {
        return Some(EMPTY); // another request owns this slot
      }
      if p.entry.etag == "" || !Persistable(p.entry) || !p.intact {
        return None;
      }
      TotalReplaced(mem, key, p.entry);
      mem := mem[key := p.entry];
      size := size + |p.entry.body|;
      return Some(p.entry);
    }

    /** Whether a store empties the memory first. */
    predicate Overflows(body: string)
      reads this
    {
      size + |body| > MAX_SIZE || |mem| >= MAX_ENTRIES
    }

    /**
     * The end of a successful GET.  The counter stays exact unless the save fails after an older body
     * of the same key has been subtracted and left in place.
     */
    method Store(key: Key, entry: Entry, saveFails: bool) returns (ok: bool)
      requires Sound() && entry.etag != "" && |entry.body| <= MAX_BODY
      modifies this
      ensures Sound() && old(saved) <= saved <= old(saved) + {(key, entry)}
      ensures ok <==> !(saveFails && persistent && Persistable(entry))
      ensures ok ==> key in mem && mem[key] == entry
      ensures ok ==> forall k | k in mem && k != key :: k in old(mem) && mem[k] == old(mem)[k]
      ensures ok && persistent && Persistable(entry) ==>
            disk == old(disk)[Slot(key) := Persisted(Some(key), entry, true)]
      ensures !ok || !persistent || !Persistable(entry) ==> disk == old(disk)
      ensures !ok ==> mem == if old(Overflows(entry.body)) then map[] else old(mem)
      ensures ok ==> size <= 33_554_432 && |mem| <= 128
      ensures old(Overflows(entry.body)) <==> old(size) + |entry.body| > 33_554_432 || |old(mem)| >= 128
      ensures ok ==> Drift() == if old(Overflows(entry.body)) then 0 else old(Drift())
      ensures !ok ==> Drift() == (if old(Overflows(entry.body)) then 0 else old(Drift() + BodyLength(key)))
    {
      if size + |entry.body| > MAX_SIZE || |mem| >= MAX_ENTRIES {
        mem := map[];
        size := 0;
      }
      ok := Admit(key, entry, saveFails);
    }

    function BodyLength(key: Key): nat
      reads this
    {
      if key in mem then |mem[key].body| else 0
    }

    /** The same once there is room. */
    method Admit(key: Key, entry: Entry, saveFails: bool) returns (ok: bool)
      requires Sound()
      modifies this
      ensures Sound() && old(saved) <= saved <= old(saved) + {(key, entry)}
      ensures ok <==> !(saveFails && persistent && Persistable(entry))
      ensures mem == if ok then old(mem)[key := entry] else old(mem)
      ensures size == old(size) - old(BodyLength(key)) + if ok then |entry.body| else 0
      ensures ok && persistent && Persistable(entry) ==>
            disk == old(disk)[Slot(key) := Persisted(Some(key), entry, true)]
      ensures !ok || !persistent || !Persistable(entry) ==> disk == old(disk)
      ensures Drift() == old(Drift()) + if ok then 0 else old(BodyLength(key))
    {
      if key in mem {
        size := size - |mem[key].body|;
      }
      if persistent && Persistable(entry) {
        if saveFails {
          return false;
        }
        disk := disk[Slot(key) := Persisted(Some(key), entry, true)];
      }
      saved := saved + {(key, entry)};
      TotalReplaced(mem, key, entry);
      mem := mem[key := entry];
      size := size + |entry.body|;
      return true;
    }

    /** A cached body that echoes the credential is dropped from memory and its slot is overwritten. */
    method Discard(key: Key, cached: Entry, saveFails: bool) returns (ok: bool)
      requires Sound() && key in mem && mem[key] == cached
      modifies this`mem, this`size, this`disk
      ensures Sound() && mem == old(mem) - {key} && Drift() == old(Drift())
      ensures disk == if ok && persistent then old(disk)[key.firstByte % 64 := Persisted(None, EMPTY, true)]
                      else old(disk)
      ensures ok <==> !(persistent && saveFails)
    {
      TotalWithout(mem, key);
      mem := mem - {key};
      size := size - |cached.body|;
      if persistent {
        if saveFails {
          return false;
        }
        disk := disk[Slot(key) := Persisted(None, EMPTY, true)];
      }
      return true;
    }

    /** What one answer leads to: an outcome, or another attempt. */
    method Decide(key: Key, cached: Entry, sent: string, reply: Reply, last: bool, saveFails: bool)
      returns (outcome: Option<Outcome>)
      requires Sound()
      modifies this
      ensures Sound() && old(saved) <= saved
      ensures outcome.None? <==> GoesOn(reply, sent) && !last
      ensures outcome.Some? ==> Means(reply, last, sent, cached.body, saveFails && Keeps(reply), outcome.value)
      ensures Storable(reply) && outcome != Some(SaveFailed) ==>
        key in mem && mem[key] == Entry(reply.etag, reply.link, reply.body)
      ensures !Storable(reply) ==> mem == old(mem) && disk == old(disk) && saved == old(saved) && size == old(size)
      ensures Storable(reply) ==> saved <= old(saved) + {(key, Entry(reply.etag, reply.link, reply.body))}
      ensures outcome != Some(SaveFailed) ==> Drift() == old(Drift()) || Drift() == 0
      ensures outcome == Some(SaveFailed) ==> Drift() == 0 || Drift() == old(Drift()) + BodyLength(key)
    {
      if reply.Stopped? {
        return Some(Failed);
      }
      if reply.NoAnswer? {
        return if last then Some(Unavailable) else None;
      }
      if reply.echoes {
        return Some(if reply.status == 401 || reply.status == 403 then Status(reply.status) else Unavailable);
      }
      if reply.broken || |reply.body| > MAX_RESPONSE {
        return Some(Unavailable);
      }
      if reply.status == 304 {
        if sent != "" {
          return Some(Served(cached.body, sent, true));
        }
        return if last then Some(NoRepresentation) else None;
      }
      if Good(reply.status) && reply.etag != "" && |reply.body| <= MAX_BODY {
        var ok := Store(key, Entry(reply.etag, reply.link, reply.body), saveFails);
        if !ok {
          return Some(SaveFailed);
        }
      }
      if reply.status == 403 && reply.limited {
        return Some(RateLimited);
      }
      if Retriable(reply.status) && !last {
        return if reply.longWait then Some(RateLimited) else None;
      }
      return Some(if Good(reply.status) then Served(reply.body, sent, false) else Status(reply.status));
    }

    /** Whether the response would be put in the store, where the save can fail. */
    predicate Keeps(reply: Reply)
      reads this
    {
      persistent && Storable(reply)
      && |reply.body| <= 262_144 && |reply.etag| <= 512 && |reply.link| <= 4096
    }

    /** The requests of one GET, after what was found in the cache. */
    method Ask(key: Key, found: Entry, replies: seq<Reply>, saveFails: bool) returns (outcome: Outcome, requests: nat)
      requires Sound() && |replies| >= ATTEMPTS
      modifies this
      ensures Sound() && old(saved) <= saved && 0 < requests <= 4
      ensures forall i | 0 <= i < requests - 1 :: GoesOn(replies[i], found.etag)
      ensures Means(replies[requests - 1], requests == 4, found.etag, found.body,
                    saveFails && Keeps(replies[requests - 1]), outcome)
      ensures GoesOn(replies[requests - 1], found.etag) ==> requests == 4
      ensures Storable(replies[requests - 1]) && outcome != SaveFailed ==>
        var r := replies[requests - 1]; key in mem && mem[key] == Entry(r.etag, r.link, r.body)
      ensures forall p | p in saved :: p in old(saved) || Received(key, replies, p)
      ensures outcome != SaveFailed ==> Drift() == old(Drift()) || Drift() == 0
      ensures outcome == SaveFailed ==> Drift() == 0 || Drift() == old(Drift()) + BodyLength(key)
    {
      requests := 0;
      var skipConditional := false;
      for attempt := 0 to ATTEMPTS
        invariant Sound() && saved == old(saved) && Drift() == old(Drift()) && requests == attempt
        invariant skipConditional ==> found.etag == ""
        invariant forall i | 0 <= i < attempt :: GoesOn(replies[i], found.etag)
        invariant attempt < ATTEMPTS
      {
        var sent := if found.etag != "" && !skipConditional then found.etag else "";
        var reply := replies[attempt];
        requests := attempt + 1;
        var decided := Decide(key, found, sent, reply, attempt == ATTEMPTS - 1, saveFails);
        if decided.Some? {
          return decided.value, requests;
        }
        if reply.Reply? && reply.status == 304 {
          skipConditional := true;
        }
      }
      outcome := Exhausted;
    }

    /**
     * A conditional GET with its retries.  `replies[n]` answers attempt n.  Every request carries the entity tag
     * that was found, if there was one, and a 304 is answered with the body that was saved together with it.
     */
    method Get(key: Key, replies: seq<Reply>, cachedEchoes: bool, saveFails: bool)
      returns (outcome: Outcome, requests: nat, found: Entry)
      requires Sound() && |replies| >= ATTEMPTS
      modifies this
      ensures Sound() && old(saved) <= saved && requests <= 4
      ensures found == EMPTY || (key, found) in old(saved)
      ensures key in old(mem) ==> found == old(mem)[key]
      ensures key !in old(mem) && !old(InSlot(key)) ==> found == EMPTY
      ensures key !in old(mem) && old(InSlot(key)) && outcome != CacheCorrupt ==>
        found == old(disk)[key.firstByte % 64].entry
      ensures requests == 0 <==> outcome == CacheCorrupt || outcome == CacheEchoed
      ensures outcome == CacheEchoed <==> outcome != CacheCorrupt && cachedEchoes && found != EMPTY
      ensures outcome == CacheEchoed ==> key !in mem && saved == old(saved)
      ensures forall i | 0 <= i < requests - 1 :: GoesOn(replies[i], found.etag)
      ensures requests > 0 ==>
        && Means(replies[requests - 1], requests == 4, found.etag, found.body,
                 saveFails && Keeps(replies[requests - 1]), outcome)
        && (GoesOn(replies[requests - 1], found.etag) ==> requests == 4)
      ensures outcome.Served? && !outcome.fromCache && Storable(replies[requests - 1]) ==>
        var r := replies[requests - 1]; key in mem && mem[key] == Entry(r.etag, r.link, r.body)
      ensures forall p | p in saved :: p in old(saved) || Received(key, replies, p)
      ensures !outcome.SaveFailed? ==> Drift() == old(Drift()) || Drift() == 0
      ensures outcome.SaveFailed? ==> Drift() == 0 || Drift() == old(Drift()) + BodyLength(key)
    {
      requests, found := 0, EMPTY;
      var loaded := Load(key);
      if loaded.None? {
        return CacheCorrupt, requests, found;
      }
      found := loaded.value;
      if found != EMPTY && cachedEchoes {
        var _ := Discard(key, found, saveFails);
        return CacheEchoed, requests, found;
      }
      outcome, requests := Ask(key, found, replies, saveFails);
    }
  }

  /** A failed save of a key that is already cached leaves the counter short: the source returns before undoing it. */
  method FailedSaveDrifts() returns (c: Cache)
    ensures fresh(c) && c.Drift() == 1
  {
    c := new Cache(true);
    var _ := c.Store(Key(0, 0), Entry("a", "", "x"), false);
    assert c.mem == map[][Key(0, 0) := Entry("a", "", "x")];
    TotalReplaced(map[], Key(0, 0), Entry("a", "", "x"));
    var _ := c.Store(Key(0, 0), Entry("b", "", "y"), true);
  }
}
