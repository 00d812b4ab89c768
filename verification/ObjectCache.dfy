/**
 The write-through object cache: reads are cached by path and range, writes that are
 acknowledged invalidate every key registered for their path, and entries may be evicted at
 any time (crates/kevindb-server/src/cache.rs).
 */
module ObjectCache {
  import opened Wrappers
  import opened Bytes
  import opened ObjectStore
  import opened CacheKeys

  /** A read: its bytes, the object's size and the range they are of. */
  datatype Read = Read(bytes: ByteString, size: nat, start: nat, end: nat)

  // ---- the inner store ----

  function InnerGet(content: ByteString, range: Option<GetRange>): Option<Read> {
    match ServedRange(|content|, range)
    case None => None
    case Some(served) => Some(Read(content[served.start..served.end], |content|, served.start, served.end))
  }

  function FullRead(content: ByteString): Read {
    Read(content, |content|, 0, |content|)
  }

  // ---- slicing a cached object ----

  /** `requested_range`. */
  function RequestedRange(size: nat, range: Option<GetRange>): Option<(nat, nat)> {
    match range
    case None => Some((0, size))
    case Some(Bounded(start, end)) => if start <= end && end <= size then Some((start, end)) else None
    case Some(Offset(offset)) => if offset <= size then Some((offset, size)) else None
    case Some(Suffix(length)) => Some((if length >= size then 0 else size - length, size))
  }

  /** `slice`. */
  function Slice(read: Read, range: Option<GetRange>): Option<Read> {
    if read.start != 0 || read.end != read.size then None
    else match RequestedRange(read.size, range)
      case None => None
      case Some((start, end)) =>
        if start <= end <= |read.bytes| then Some(Read(read.bytes[start..end], read.size, start, end)) else None
  }

  /** What the cache may answer: whatever the store would, and for requests the store refuses, whatever a slice gives. */
  ghost predicate Right(content: ByteString, range: Option<GetRange>, read: Read) {
    && (InnerGet(content, range).Some? ==> read == InnerGet(content, range).value)
    && (InnerGet(content, range).None? ==> Slice(FullRead(content), range) == Some(read))
  }

  /** Empty reads at or before the object's end: refused by the store, but a slice of it all the same. */
  predicate EmptyRead(size: nat, range: Option<GetRange>) {
    match range
    case Some(Bounded(start, end)) => start == end <= size
    case Some(Offset(offset)) => offset == size
    case _ => false
  }

  /** Where the cache can show: exactly the empty reads are sliced from a cached object although the store refuses them. */
  lemma {:induction false} OnlyEmptyReadsShow(content: ByteString, range: Option<GetRange>)
    ensures InnerGet(content, range).None? && Slice(FullRead(content), range).Some? <==> EmptyRead(|content|, range)
    ensures EmptyRead(|content|, range) ==>
      exists at :: 0 <= at <= |content| && Slice(FullRead(content), range) == Some(Read([], |content|, at, at))
  {
    if EmptyRead(|content|, range) {
      var at := match range.value case Bounded(start, _) => start case Offset(offset) => offset case Suffix(_) => 0;
      assert content[at..at] == [];
      assert Slice(FullRead(content), range) == Some(Read([], |content|, at, at));
    }
  }

  /** A slice of the whole object is what the store would serve. */
  lemma {:induction false} SliceRight(content: ByteString, range: Option<GetRange>)
    requires Slice(FullRead(content), range).Some?
    ensures Right(content, range, Slice(FullRead(content), range).value)
  {
  }

  lemma {:induction false} FullRight(content: ByteString, read: Read)
    ensures Right(content, None, read) <==> read == FullRead(content)
  {
    assert content[0..|content|] == content;
  }

  // ---- the invariant ----

  type Keys = map<Path, set<string>>

  function KeysAt(keys: Keys, path: Path): set<string> {
    if path in keys then keys[path] else {}
  }

  /**
   The entry is registered under its path, and right for some read of an object there,
   unless the path is stale: written with the reply lost.
   */
  ghost predicate Entry(
    objects: map<Path, ByteString>, stale: set<Path>, keys: Keys, key: string, read: Read, path: Path, range: Option<GetRange>)
  {
    && key == CacheKey(path, range) && key in KeysAt(keys, path)
    && (path in stale || (path in objects && Right(objects[path], range, read)))
  }

  ghost predicate Cached(objects: map<Path, ByteString>, stale: set<Path>, keys: Keys, key: string, read: Read) {
    exists path, range :: Entry(objects, stale, keys, key, read, path, range)
  }

  ghost predicate CacheInv(objects: map<Path, ByteString>, stale: set<Path>, cache: map<string, Read>, keys: Keys) {
    forall key :: key in cache ==> Cached(objects, stale, keys, key, cache[key])
  }

  /** A hit is registered, and right for the request that hit it if the path is not stale. */
  lemma {:induction false} HitRight(
    objects: map<Path, ByteString>, stale: set<Path>, cache: map<string, Read>, keys: Keys, path: Path, range: Option<GetRange>)
    requires CacheInv(objects, stale, cache, keys) && CacheKey(path, range) in cache
    ensures CacheKey(path, range) in KeysAt(keys, path)
    ensures path !in stale ==> path in objects && Right(objects[path], range, cache[CacheKey(path, range)])
  {
    var key := CacheKey(path, range);
    assert Cached(objects, stale, keys, key, cache[key]);
    var p, r :| Entry(objects, stale, keys, key, cache[key], p, r);
    CacheKeyInjective(path, range, p, r);
  }

  lemma {:induction false} InsertKeepsInv(
    objects: map<Path, ByteString>, stale: set<Path>, cache: map<string, Read>, keys: Keys, path: Path, range: Option<GetRange>, read: Read)
    requires CacheInv(objects, stale, cache, keys) && (path in stale || (path in objects && Right(objects[path], range, read)))
    ensures var key := CacheKey(path, range);
            CacheInv(objects, stale, cache[key := read], keys[path := KeysAt(keys, path) + {key}])
  {
    var key := CacheKey(path, range);
    var after, more := cache[key := read], keys[path := KeysAt(keys, path) + {key}];
    hide Right, CacheKey;
    forall k | k in after
      ensures Cached(objects, stale, more, k, after[k])
    {
      if k == key {
        assert Entry(objects, stale, more, key, read, path, range);
      } else {
        assert Cached(objects, stale, keys, k, cache[k]);
        var p, r :| Entry(objects, stale, keys, k, cache[k], p, r);
        assert Entry(objects, stale, more, k, after[k], p, r);
      }
    }
  }

  /** The stores agree away from one path. */
  ghost predicate SameElsewhere(before: map<Path, ByteString>, after: map<Path, ByteString>, path: Path) {
    forall p :: p != path ==> (p in before <==> p in after) && (p in before ==> before[p] == after[p])
  }

  /** Dropping everything registered for a path keeps the cache right, whatever happens to that path, and the path is stale no more. */
  lemma {:induction false} InvalidateKeepsInv(
    before: map<Path, ByteString>, after: map<Path, ByteString>, stale: set<Path>, cache: map<string, Read>, keys: Keys, path: Path)
    requires CacheInv(before, stale, cache, keys) && SameElsewhere(before, after, path)
    ensures CacheInv(after, stale - {path}, cache - KeysAt(keys, path), keys - {path})
  {
    hide Right, CacheKey;
    var left, fewer := cache - KeysAt(keys, path), keys - {path};
    forall k | k in left
      ensures Cached(after, stale - {path}, fewer, k, left[k])
    {
      assert Cached(before, stale, keys, k, cache[k]);
      var p, r :| Entry(before, stale, keys, k, cache[k], p, r);
      assert p != path;
      assert Entry(after, stale - {path}, fewer, k, left[k], p, r);
    }
  }

  /** A write whose reply is lost leaves its path stale and nothing else. */
  lemma {:induction false} LostKeepsInv(
    before: map<Path, ByteString>, after: map<Path, ByteString>, stale: set<Path>, cache: map<string, Read>, keys: Keys, path: Path)
    requires CacheInv(before, stale, cache, keys) && SameElsewhere(before, after, path)
    ensures CacheInv(after, stale + {path}, cache, keys)
  {
    hide Right, CacheKey;
    forall k | k in cache
      ensures Cached(after, stale + {path}, keys, k, cache[k])
    {
      assert Cached(before, stale, keys, k, cache[k]);
      var p, r :| Entry(before, stale, keys, k, cache[k], p, r);
      assert Entry(after, stale + {path}, keys, k, cache[k], p, r);
    }
  }

  /** What is cached for a path is right for what the store holds there. */
  ghost predicate PathRight(objects: map<Path, ByteString>, cache: map<string, Read>, path: Path) {
    forall range :: CacheKey(path, range) in cache ==> path in objects && Right(objects[path], range, cache[CacheKey(path, range)])
  }

  /** The cache is right after a write whose reply was lost if and only if what it holds of that path is right for the new content. */
  lemma {:induction false} LostReplyShows(
    before: map<Path, ByteString>, after: map<Path, ByteString>, stale: set<Path>, cache: map<string, Read>, keys: Keys, path: Path)
    requires CacheInv(before, stale, cache, keys) && SameElsewhere(before, after, path) && path !in stale
    ensures CacheInv(after, stale, cache, keys) <==> PathRight(after, cache, path)
  {
    if CacheInv(after, stale, cache, keys) {
      forall range | CacheKey(path, range) in cache
        ensures path in after && Right(after[path], range, cache[CacheKey(path, range)])
      {
        HitRight(after, stale, cache, keys, path, range);
      }
    }
    if PathRight(after, cache, path) {
      hide Right, CacheKey;
      forall k | k in cache
        ensures Cached(after, stale, keys, k, cache[k])
      {
        assert Cached(before, stale, keys, k, cache[k]);
        var p, r :| Entry(before, stale, keys, k, cache[k], p, r);
        assert Entry(after, stale, keys, k, cache[k], p, r);
      }
    }
  }

  lemma {:induction false} EvictKeepsInv(objects: map<Path, ByteString>, stale: set<Path>, cache: map<string, Read>, keys: Keys, evicted: set<string>)
    requires CacheInv(objects, stale, cache, keys)
    ensures CacheInv(objects, stale, cache - evicted, keys)
  {
    hide Cached;
  }

  // ---- the wrapper ----

  datatype GetError = NotFound | Refused

  /** What the inner store answers. */
  function InnerResult(objects: map<Path, ByteString>, path: Path, range: Option<GetRange>): Result<Read, GetError> {
    if path !in objects then Err(NotFound)
    else if InnerGet(objects[path], range).None? then Err(Refused)
    else Ok(InnerGet(objects[path], range).value)
  }

  /** Requests the store refuses and a cache may answer. */
  /** The inner store's answer: no object, nothing to serve, or the object's bytes at the places asked for. */
  lemma {:induction false} InnerAnswers(objects: map<Path, ByteString>, path: Path, range: Option<GetRange>)
    ensures InnerResult(objects, path, range) == Err(NotFound) <==> path !in objects
    ensures path in objects ==>
      (InnerResult(objects, path, range) == Err(Refused) <==>
       range.Some? && !range.value.Suffix? && forall i: nat :: !Asks(|objects[path]|, range, i))
    ensures InnerResult(objects, path, range).Ok? ==>
      var read := InnerResult(objects, path, range).value;
      && path in objects && read.size == |objects[path]| && read.start <= read.end <= read.size
      && read.bytes == objects[path][read.start..read.end]
      && forall i: nat :: read.start <= i < read.end <==> Asks(read.size, range, i)
  {
    if path in objects {
      ServedIsAsked(|objects[path]|, range);
      hide ServedRange;
    }
  }

  predicate Slips(objects: map<Path, ByteString>, path: Path, range: Option<GetRange>) {
    path in objects && EmptyRead(|objects[path]|, range)
  }

  /** The object's bytes for every range, or a refusal. */
  function InnerRanges(objects: map<Path, ByteString>, path: Path, ranges: seq<Range>): Result<seq<ByteString>, GetError> {
    if ranges == [] then Ok([])
    else if path !in objects then Err(NotFound)
    else
      match ServedAll(objects[path], ranges)
      case None => Err(Refused)
      case Some(chunks) => Ok(chunks)
  }

  /** Exactly the entries registered for the paths are gone, and their registrations. */
  ghost predicate Dropped(before: map<string, Read>, keys: Keys, after: map<string, Read>, fewer: Keys, paths: set<Path>) {
    fewer == keys - paths && after == before - (set path, key | path in paths && key in KeysAt(keys, path) :: key)
  }

  lemma {:induction false} NothingDropped(cache: map<string, Read>, keys: Keys)
    ensures Dropped(cache, keys, cache, keys, {})
  {
  }

  lemma {:induction false} OneDropped(cache: map<string, Read>, keys: Keys, path: Path)
    ensures Dropped(cache, keys, cache - KeysAt(keys, path), keys - {path}, {path})
  {
    assert (set p, key | p in {path} && key in KeysAt(keys, p) :: key) == KeysAt(keys, path);
  }

  lemma {:induction false} Reregistered(keys: Keys, path: Path, key: string)
    ensures path !in keys ==> forall before: Keys :: before - {path} == keys ==>
      keys[path := KeysAt(keys, path) + {key}] == before[path := {key}]
  {
    if path !in keys {
      assert KeysAt(keys, path) + {key} == {key};
      forall before: Keys | before - {path} == keys
        ensures keys[path := {key}] == before[path := {key}]
      {
        assert forall p :: p != path ==> (p in before <==> p in keys) && (p in before ==> before[p] == keys[p]);
      }
    }
  }

  lemma {:induction false} BothDropped(cache: map<string, Read>, keys: Keys, from: Path, to: Path)
    ensures var fewer := keys - {from};
            Dropped(cache, keys, (cache - KeysAt(keys, from)) - KeysAt(fewer, to), fewer - {to}, {from, to})
  {
    var fewer := keys - {from};
    assert fewer - {to} == keys - {from, to};
    var gone := set p, key | p in {from, to} && key in KeysAt(keys, p) :: key;
    forall key
      ensures key in gone <==> key in KeysAt(keys, from) || key in KeysAt(fewer, to)
    {
      assert key in gone <==> key in KeysAt(keys, from) || key in KeysAt(keys, to);
    }
    assert gone == KeysAt(keys, from) + KeysAt(fewer, to);
  }

  /** How a write ends: done and acknowledged, done with the reply lost, or not done. */
  datatype Outcome = Done | Lost | Failed

  /** How much of a rename is done: stores copy first and delete then. */
  datatype RenameOutcome = Renaming(copied: bool, deleted: bool, acknowledged: bool)

  /** The objects after a write of one path. */
  function Written(objects: map<Path, ByteString>, path: Path, bytes: ByteString, outcome: Outcome): map<Path, ByteString> {
    if outcome == Failed then objects else objects[path := bytes]
  }

  function Renamed(objects: map<Path, ByteString>, from: Path, to: Path, outcome: RenameOutcome): map<Path, ByteString>
    requires outcome.copied ==> from in objects
  {
    var copied := if outcome.copied then objects[to := objects[from]] else objects;
    if outcome.deleted && from != to then copied - {from} else copied
  }

  /**
   `objects` is the inner store; the next two fields are the wrapper's.  `stale` is history:
   the paths last written with the reply lost.
   */
  class CachedObjectStore {
    var objects: map<Path, ByteString>
    var cache: map<string, Read>
    var keysByPath: Keys
    ghost var stale: set<Path>

    ghost predicate Valid()
      reads this
    {
      CacheInv(objects, stale, cache, keysByPath)
    }

    constructor (inner: map<Path, ByteString>)
      ensures Valid() && objects == inner && stale == {}
    {
      objects, cache, keysByPath := inner, map[], map[];
      stale := {};
    }

    /** The cache may drop anything at any time. */
    method Evict(evicted: set<string>)
      requires Valid()
      modifies this`cache
      ensures Valid() && cache == old(cache) - evicted
    {
      EvictKeepsInv(objects, stale, cache, keysByPath, evicted);
      cache := cache - evicted;
    }

    /** `insert`. */
    method Insert(path: Path, range: Option<GetRange>, read: Read)
      requires Valid() && (path in stale || (path in objects && Right(objects[path], range, read)))
      modifies this`cache, this`keysByPath
      ensures Valid() && cache == old(cache)[CacheKey(path, range) := read]
      ensures keysByPath == old(keysByPath)[path := KeysAt(old(keysByPath), path) + {CacheKey(path, range)}]
    {
      hide Right, CacheKey, CacheInv;
      InsertKeepsInv(objects, stale, cache, keysByPath, path, range, read);
      var key := CacheKey(path, range);
      cache := cache[key := read];
      keysByPath := keysByPath[path := KeysAt(keysByPath, path) + {key}];
    }

    /** `invalidate_path`: the registered keys are taken out one by one. */
    method InvalidatePath(path: Path)
      modifies this`cache, this`keysByPath
      ensures cache == old(cache) - KeysAt(old(keysByPath), path) && keysByPath == old(keysByPath) - {path}
    {
      var keys := KeysAt(keysByPath, path);
      keysByPath := keysByPath - {path};
      ghost var done: set<string> := {};
      while keys != {}
        invariant done + keys == KeysAt(old(keysByPath), path)
        invariant cache == old(cache) - done
        invariant keysByPath == old(keysByPath) - {path} && objects == old(objects)
        decreases keys
      {
        var key := Pick(keys);
        cache := cache - {key};
        keys := keys - {key};
        done := done + {key};
      }
    }

    /** `put_opts`: an acknowledged put invalidates the path and caches the new object. */
    method Put(path: Path, bytes: ByteString, outcome: Outcome)
      requires Valid()
      modifies this
      ensures Valid() && objects == if outcome == Failed then old(objects) else old(objects)[path := bytes]
      ensures outcome == Done ==> stale == old(stale) - {path}
      ensures outcome == Lost ==> stale == old(stale) + {path}
      ensures outcome == Failed ==> stale == old(stale)
      ensures outcome == Done ==> cache == (old(cache) - KeysAt(old(keysByPath), path))[CacheKey(path, None) := FullRead(bytes)]
      ensures outcome == Done ==> keysByPath == old(keysByPath)[path := {CacheKey(path, None)}]
      ensures outcome != Done ==> cache == old(cache) && keysByPath == old(keysByPath)
    {
      hide CacheInv, CacheKey;
      ghost var before := objects;
      objects := Written(objects, path, bytes, outcome);
      if outcome == Done {
        InvalidateKeepsInv(before, objects, stale, cache, keysByPath, path);
        stale := stale - {path};
        InvalidatePath(path);
        FullRight(bytes, FullRead(bytes));
        Reregistered(keysByPath, path, CacheKey(path, None));
        Insert(path, None, FullRead(bytes));
      } else if outcome == Lost {
        LostKeepsInv(before, objects, stale, cache, keysByPath, path);
        stale := stale + {path};
      }
    }

    /** Completing a multipart upload: the object appears at once, and nothing is cached for it. */
    method CompleteMultipart(path: Path, bytes: ByteString, outcome: Outcome)
      requires Valid()
      modifies this
      ensures Valid() && objects == if outcome == Failed then old(objects) else old(objects)[path := bytes]
      ensures outcome == Done ==> stale == old(stale) - {path}
      ensures outcome == Lost ==> stale == old(stale) + {path}
      ensures outcome == Failed ==> stale == old(stale)
      ensures Dropped(old(cache), old(keysByPath), cache, keysByPath, if outcome == Done then {path} else {})
    {
      hide CacheInv;
      ghost var before := objects;
      objects := Written(objects, path, bytes, outcome);
      NothingDropped(cache, keysByPath);
      OneDropped(cache, keysByPath, path);
      if outcome == Done {
        InvalidateKeepsInv(before, objects, stale, cache, keysByPath, path);
        stale := stale - {path};
        InvalidatePath(path);
      } else if outcome == Lost {
        LostKeepsInv(before, objects, stale, cache, keysByPath, path);
        stale := stale + {path};
      }
    }

    /** One path of `delete_stream`: invalidated before the inner delete, so that a failure or a lost reply does no harm. */
    method Delete(path: Path, deleted: bool)
      requires Valid()
      modifies this
      ensures Valid() && objects == if deleted then old(objects) - {path} else old(objects)
      ensures stale == old(stale) - {path}
      ensures Dropped(old(cache), old(keysByPath), cache, keysByPath, {path})
    {
      hide CacheInv;
      OneDropped(cache, keysByPath, path);
      InvalidateKeepsInv(objects, if deleted then objects - {path} else objects, stale, cache, keysByPath, path);
      stale := stale - {path};
      InvalidatePath(path);
      if deleted {
        objects := objects - {path};
      }
    }

    /** `copy_opts`. */
    method Copy(from: Path, to: Path, outcome: Outcome)
      requires Valid() && (outcome != Failed ==> from in objects)
      modifies this
      ensures Valid() && objects == if outcome == Failed then old(objects) else old(objects)[to := old(objects)[from]]
      ensures outcome == Done ==> stale == old(stale) - {to}
      ensures outcome == Lost ==> stale == old(stale) + {to}
      ensures outcome == Failed ==> stale == old(stale)
      ensures Dropped(old(cache), old(keysByPath), cache, keysByPath, if outcome == Done then {to} else {})
    {
      hide CacheInv;
      NothingDropped(cache, keysByPath);
      OneDropped(cache, keysByPath, to);
      if outcome == Failed {
        return;
      }
      ghost var before := objects;
      objects := objects[to := objects[from]];
      if outcome == Done {
        InvalidateKeepsInv(before, objects, stale, cache, keysByPath, to);
        stale := stale - {to};
        InvalidatePath(to);
      } else {
        LostKeepsInv(before, objects, stale, cache, keysByPath, to);
        stale := stale + {to};
      }
    }

    /** `rename_opts`: both names are invalidated once the store has acknowledged; until then the rename may be half done. */
    method Rename(from: Path, to: Path, outcome: RenameOutcome)
      requires Valid() && (outcome.copied ==> from in objects)
      requires (outcome.deleted ==> outcome.copied) && (outcome.acknowledged ==> outcome.deleted)
      modifies this
      ensures Valid()
      ensures !outcome.copied ==> objects == old(objects)
      ensures outcome.copied && !(outcome.deleted && from != to) ==> objects == old(objects)[to := old(objects)[from]]
      ensures outcome.copied && outcome.deleted && from != to ==> objects == old(objects)[to := old(objects)[from]] - {from}
      ensures stale == if outcome.acknowledged then old(stale) - {from, to}
                       else old(stale) + (if outcome.copied then {to} else {}) + (if outcome.deleted then {from} else {})
      ensures Dropped(old(cache), old(keysByPath), cache, keysByPath, if outcome.acknowledged then {from, to} else {})
    {
      hide CacheInv;
      ghost var before, keys, entries := objects, keysByPath, cache;
      ghost var copied := if outcome.copied then objects[to := objects[from]] else objects;
      objects := Renamed(objects, from, to, outcome);
      NothingDropped(cache, keysByPath);
      if outcome.acknowledged {
        InvalidateKeepsInv(before, RenamedFrom(before, objects, from), stale, cache, keysByPath, from);
        InvalidatePath(from);
        InvalidateKeepsInv(RenamedFrom(before, objects, from), objects, stale - {from}, cache, keysByPath, to);
        InvalidatePath(to);
        assert stale - {from} - {to} == stale - {from, to};
        stale := stale - {from, to};
        BothDropped(entries, keys, from, to);
      } else {
        if outcome.copied {
          LostKeepsInv(before, copied, stale, cache, keysByPath, to);
          stale := stale + {to};
        }
        if outcome.deleted {
          LostKeepsInv(copied, objects, stale, cache, keysByPath, from);
          stale := stale + {from};
        }
      }
    }

    /**
     `get_opts`.  Every request for a path that is not stale is answered as the inner store
     answers it, cached or not, except an empty read of an object: that one is answered,
     empty, exactly when it or the whole object is cached.  A hit is answered with what is
     cached, stale or not.
     */
    method Get(path: Path, range: Option<GetRange>, cacheable: bool) returns (result: Result<Read, GetError>)
      requires Valid()
      modifies this`cache, this`keysByPath
      ensures Valid()
      ensures path !in stale && !Slips(objects, path, range) ==> result == InnerResult(objects, path, range)
      ensures path !in stale && Slips(objects, path, range) ==>
        (result.Ok? <==> cacheable && (CacheKey(path, range) in old(cache) || CacheKey(path, None) in old(cache)))
      ensures path !in stale && Slips(objects, path, range) ==>
        if result.Ok? then Some(result.value) == Slice(FullRead(objects[path]), range) else result == Err(Refused)
      ensures cacheable && CacheKey(path, range) in old(cache) ==> result == Ok(old(cache)[CacheKey(path, range)])
      // whatever is answered is cached from then on, and nothing else changes
      ensures cacheable && result.Ok? ==> cache == old(cache)[CacheKey(path, range) := result.value]
      ensures cacheable && result.Ok? ==> keysByPath == old(keysByPath)[path := KeysAt(old(keysByPath), path) + {CacheKey(path, range)}]
      ensures !cacheable || result.Err? ==> cache == old(cache) && keysByPath == old(keysByPath)
    {
      hide Right, CacheKey, Slice, CacheInv, InnerGet, EmptyRead;
      if !cacheable {
        SlipsRefused(objects, path, range);
        return InnerResult(objects, path, range);
      }
      var key := CacheKey(path, range);
      if key in cache {
        HitRight(objects, stale, cache, keysByPath, path, range);
        if path !in stale {
          RightIsInner(objects, path, range, cache[key]);
        }
        assert KeysAt(keysByPath, path) + {key} == KeysAt(keysByPath, path);
        return Ok(cache[key]);
      }
      var whole := CacheKey(path, None);
      if range.Some? && whole in cache {
        HitRight(objects, stale, cache, keysByPath, path, None);
        if path !in stale {
          FullRight(objects[path], cache[whole]);
        }
        var read := Slice(cache[whole], range);
        if read.Some? {
          if path !in stale {
            SliceRight(objects[path], range);
            RightIsInner(objects, path, range, read.value);
          }
          Insert(path, range, read.value);
          return Ok(read.value);
        }
        if path !in stale {
          OnlyEmptyReadsShow(objects[path], range);
        }
      }
      SlipsRefused(objects, path, range);
      InnerIsRight(objects, path, range);
      result := InnerResult(objects, path, range);
      if result.Ok? {
        Insert(path, range, result.value);
      }
    }

    /** `get_ranges`: one get per range.  Unless one of them is empty, the answer for a path that is not stale is the inner store's. */
    method GetRanges(path: Path, ranges: seq<Range>) returns (result: Result<seq<ByteString>, GetError>)
      requires Valid()
      modifies this`cache, this`keysByPath
      ensures Valid()
      ensures path !in stale && (forall i :: 0 <= i < |ranges| ==> !Slips(objects, path, RequestFor(ranges[i]))) ==>
        result == InnerRanges(objects, path, ranges)
    {
      var chunks: seq<ByteString> := [];
      hide InnerResult, Slips, CacheInv, Slice, InnerRanges, RequestFor;
      NoInnerRanges(objects, path, ranges);
      for i := 0 to |ranges|
        invariant Valid() && objects == old(objects) && |chunks| == i
        invariant path !in stale && (forall k :: 0 <= k < i ==> !Slips(objects, path, RequestFor(ranges[k]))) ==>
          InnerRanges(objects, path, ranges[..i]) == Ok(chunks)
      {
        InnerRangesNext(objects, path, ranges, i);
        var read := Get(path, RequestFor(ranges[i]), true);
        if read.Err? {
          return Err(read.error);
        }
        chunks := chunks + [read.value.bytes];
      }
      assert ranges[..|ranges|] == ranges;
      return Ok(chunks);
    }
  }

  function RequestFor(range: Range): Option<GetRange> {
    Some(Bounded(range.start, range.end))
  }

  /** Between the two names of an acknowledged rename. */
  ghost function RenamedFrom(before: map<Path, ByteString>, after: map<Path, ByteString>, from: Path): map<Path, ByteString> {
    if from in after then before[from := after[from]] else before - {from}
  }

  lemma {:induction false} NoInnerRanges(objects: map<Path, ByteString>, path: Path, ranges: seq<Range>)
    ensures InnerRanges(objects, path, ranges[..0]) == Ok([])
  {
  }

  /** One range more, after ranges that were all answered: its bytes, or its refusal for the whole list. */
  lemma {:induction false} InnerRangesNext(objects: map<Path, ByteString>, path: Path, ranges: seq<Range>, i: nat)
    requires i < |ranges|
    ensures InnerRanges(objects, path, ranges[..i]).Ok? ==>
      match InnerResult(objects, path, RequestFor(ranges[i]))
      case Ok(read) => InnerRanges(objects, path, ranges[..i + 1]) == Ok(InnerRanges(objects, path, ranges[..i]).value + [read.bytes])
      case Err(e) => InnerRanges(objects, path, ranges) == Err(e)
  {
    if path in objects {
      var content := objects[path];
      assert ranges[..i + 1][..i] == ranges[..i];
      ServedEach(content, ranges);
      ServedEach(content, ranges[..i]);
      hide ServedRange;
      if InnerResult(objects, path, RequestFor(ranges[i])).Err? {
        assert ServedBytes(content, ranges[i]) == None;
      } else {
        assert ServedBytes(content, ranges[i]) == Some(InnerResult(objects, path, RequestFor(ranges[i])).value.bytes);
      }
    }
  }

  /**
   A put and a get of the same object: an empty read succeeds through the cache although
   the store, holding the same object, refuses it.
   */
  method PutThenEmptyRead(store: CachedObjectStore, path: Path, bytes: ByteString, range: Option<GetRange>) returns (result: Result<Read, GetError>)
    requires store.Valid() && EmptyRead(|bytes|, range)
    modifies store
    ensures store.Valid() && path in store.objects && store.objects[path] == bytes
    ensures result.Ok? && result.value.bytes == []
    ensures InnerResult(store.objects, path, range) == Err(Refused)
  {
    OnlyEmptyReadsShow(bytes, range);
    hide CacheInv, CacheKey, Slice, InnerGet;
    store.Put(path, bytes, Done);
    result := store.Get(path, range, true);
  }

  /**
   A put, a put whose reply is lost, and a get: the get answers with the first object
   although the store holds the second, until some write of the path is acknowledged.
   */
  method LostPutShowsOld(store: CachedObjectStore, path: Path, first: ByteString, second: ByteString)
    returns (result: Result<Read, GetError>, later: Result<Read, GetError>)
    requires store.Valid()
    modifies store
    ensures store.Valid() && path in store.objects && store.objects[path] == second
    ensures result == Ok(FullRead(first)) && later == Ok(FullRead(second))
  {
    hide CacheInv, CacheKey, Slice;
    store.Put(path, first, Done);
    store.Put(path, second, Lost);
    result := store.Get(path, None, true);
    store.Put(path, second, Done);
    later := store.Get(path, None, true);
  }

  lemma {:induction false} InnerIsRight(objects: map<Path, ByteString>, path: Path, range: Option<GetRange>)
    ensures InnerResult(objects, path, range).Ok? ==> path in objects && Right(objects[path], range, InnerResult(objects, path, range).value)
  {
  }

  lemma {:induction false} RightIsInner(objects: map<Path, ByteString>, path: Path, range: Option<GetRange>, read: Read)
    requires path in objects && Right(objects[path], range, read)
    ensures if Slips(objects, path, range) then Slice(FullRead(objects[path]), range) == Some(read) else InnerResult(objects, path, range) == Ok(read)
  {
    OnlyEmptyReadsShow(objects[path], range);
    hide Slice;
  }

  lemma {:induction false} SlipsRefused(objects: map<Path, ByteString>, path: Path, range: Option<GetRange>)
    ensures Slips(objects, path, range) ==> InnerResult(objects, path, range) == Err(Refused)
  {
    if path in objects {
      OnlyEmptyReadsShow(objects[path], range);
    }
  }
}
