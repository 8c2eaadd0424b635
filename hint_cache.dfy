/**
 The bookkeeping that lets a later "convert to interactive" click find a
 dataframe that was displayed earlier, stated over values.

 Two caches are kept:
 - `refs`, the weak-value dictionary from key to the displayed frame itself
   (entries vanish when the runtime collects the frame);
 - `last`, a dictionary that holds a shallow copy of the most recently
   displayed frame only.
 The output callback `convertToInteractive` is registered with the host the
 first time a frame is formatted; `callbacks` is the set of names already
 registered and `registrations` the calls made to the host's registry.
 */
module HintCache {
  import opened Wrappers

  type Key = string

  /** Every key minted by the formatter starts with this prefix. */
  const KeyPrefix: string := "df-"

  /** Name of the host-side callback the hint button invokes. */
  const ConvertFunc: string := "convertToInteractive"

  predicate IsDfKey(k: Key)
  {
    |k| >= |KeyPrefix| && k[..|KeyPrefix|] == KeyPrefix
  }

  /** The key for a display: the prefix followed by the text of a fresh uuid. */
  function MintKey(uuid: string): (k: Key)
    ensures IsDfKey(k)
    ensures |k| == |KeyPrefix| + |uuid| && k[|KeyPrefix|..] == uuid
  {
    KeyPrefix + uuid
  }

  lemma MintKeyInjective(u1: string, u2: string)
    ensures MintKey(u1) == MintKey(u2) <==> u1 == u2
  {
  }

  datatype Session<F> = Session(
    refs: map<Key, F>,
    last: map<Key, F>,
    callbacks: set<string>,
    registrations: seq<string>)

  /** The state before any frame has been displayed. */
  function Initial<F>(): Session<F>
  {
    Session(map[], map[], {}, [])
  }

  /**
   What every reachable state satisfies: at most one entry in the
   last-value cache, every cached key minted by `MintKey`, and the convert
   callback registered at most once (and recorded iff registered).
   */
  ghost predicate Inv<F>(s: Session<F>)
  {
    && |s.last| <= 1
    && (forall k :: k in s.refs ==> IsDfKey(k))
    && (forall k :: k in s.last ==> IsDfKey(k))
    && s.callbacks <= {ConvertFunc}
    && s.registrations == (if ConvertFunc in s.callbacks then [ConvertFunc] else [])
  }

  /** The caches after frame `frame`, whose shallow copy is `copy`, is displayed under `key`. */
  function Remember<F>(s: Session<F>, key: Key, frame: F, copy: F): (r: Session<F>)
    ensures r.last == map[key := copy]
    ensures key in r.refs && r.refs[key] == frame
    ensures forall k :: k != key ==> (k in r.refs <==> k in s.refs)
    ensures forall k :: k != key && k in s.refs ==> r.refs[k] == s.refs[k]
    ensures key !in s.refs ==> |r.refs| == |s.refs| + 1
    ensures r.callbacks == s.callbacks && r.registrations == s.registrations
  {
    s.(refs := s.refs[key := frame], last := map[key := copy])
  }

  /** Registers the convert callback with the host unless it is registered already. */
  function RegisterConvert<F>(s: Session<F>): (r: Session<F>)
    ensures ConvertFunc in r.callbacks
    ensures ConvertFunc in s.callbacks ==> r == s
    ensures ConvertFunc !in s.callbacks ==>
              r.registrations == s.registrations + [ConvertFunc] && r.callbacks == s.callbacks + {ConvertFunc}
    ensures r.refs == s.refs && r.last == s.last
  {
    if ConvertFunc in s.callbacks then s
    else s.(callbacks := s.callbacks + {ConvertFunc}, registrations := s.registrations + [ConvertFunc])
  }

  /** The cache part of displaying a frame: remember it, then make sure the callback exists. */
  function Format<F>(s: Session<F>, key: Key, frame: F, copy: F): (r: Session<F>)
    ensures r.last == map[key := copy]
    ensures r.refs.Keys == s.refs.Keys + {key} && r.refs[key] == frame
    ensures forall k :: k in s.refs && k != key ==> r.refs[k] == s.refs[k]
    ensures ConvertFunc in r.callbacks
    ensures r.registrations == if ConvertFunc in s.callbacks then s.registrations else s.registrations + [ConvertFunc]
  {
    RegisterConvert(Remember(s, key, frame, copy))
  }

  /** What a retrieval returns together with the caches it leaves behind. */
  datatype Taken<F> = Taken(frame: Option<F>, rest: Session<F>)

  /**
   Retrieval by key: the last-value cache is consulted first, then the weak
   cache; the entry found is popped from the cache it was found in, and a
   key found in neither gives nothing and changes nothing.
   */
  function Take<F>(s: Session<F>, key: Key): (t: Taken<F>)
    ensures key in s.last ==> t.frame == Some(s.last[key]) && t.rest == s.(last := s.last - {key})
    ensures key !in s.last && key in s.refs ==>
              t.frame == Some(s.refs[key]) && t.rest == s.(refs := s.refs - {key})
    ensures key !in s.last && key !in s.refs ==> t.frame == None && t.rest == s
    ensures t.rest.refs.Keys <= s.refs.Keys && t.rest.last.Keys <= s.last.Keys
  {
    if key in s.last then Taken(Some(s.last[key]), s.(last := s.last - {key}))
    else if key in s.refs then Taken(Some(s.refs[key]), s.(refs := s.refs - {key}))
    else Taken(None, s)
  }

  /** The runtime collects the frames in `dead`: their weak entries disappear. */
  function Collect<F>(s: Session<F>, dead: set<Key>): (r: Session<F>)
    ensures r.refs.Keys == s.refs.Keys - dead
    ensures forall k :: k in r.refs ==> r.refs[k] == s.refs[k]
    ensures r.last == s.last && r.callbacks == s.callbacks && r.registrations == s.registrations
  {
    s.(refs := s.refs - dead)
  }

  /** The key of the single entry of the last-value cache, if there is one. */
  function LastKey<F>(s: Session<F>): (r: Option<Key>)
    requires |s.last| <= 1
    ensures r == None <==> s.last == map[]
    ensures r.Some? ==> s.last.Keys == {r.value}
  {
    if s.last == map[] then None
    else
      var k :| k in s.last;
      SoleKey(s.last, k);
      Some(k)
  }

  lemma SoleKey<F>(m: map<Key, F>, k: Key)
    requires |m| <= 1 && k in m
    ensures m.Keys == {k}
  {
    if k2 :| k2 in m && k2 != k {
      assert {k, k2} <= m.Keys;
      assert |{k, k2}| == 2;
      SubsetCard({k, k2}, m.Keys);
      assert false;
    }
  }

  lemma SubsetCard(a: set<Key>, b: set<Key>)
    requires a <= b
    ensures |a| <= |b|
  {
    assert b == a + (b - a);
  }

  // ---------------------------------------------------------------------
  // Invariant preservation

  lemma InitialInv<F>()
    ensures Inv(Initial<F>())
  {
  }

  lemma FormatInv<F>(s: Session<F>, key: Key, frame: F, copy: F)
    requires Inv(s) && IsDfKey(key)
    ensures Inv(Format(s, key, frame, copy))
  {
  }

  lemma TakeInv<F>(s: Session<F>, key: Key)
    requires Inv(s)
    ensures Inv(Take(s, key).rest)
  {
  }

  lemma CollectInv<F>(s: Session<F>, dead: set<Key>)
    requires Inv(s)
    ensures Inv(Collect(s, dead))
  {
  }

  // ---------------------------------------------------------------------
  // Properties of the caches

  /**
   After a frame is displayed the last-value cache holds exactly one entry:
   the new key, mapped to the frame's copy; whatever it held before is gone.
   */
  lemma FormatKeepsOnlyLatest<F>(s: Session<F>, key: Key, frame: F, copy: F)
    ensures var r := Format(s, key, frame, copy);
      |r.last| == 1 && LastKey(r) == Some(key) && r.last[key] == copy
      && forall k :: k in s.last && k != key ==> k !in r.last
  {
  }

  /**
   Right after display, the first retrieval yields the copy, a second one
   yields the original frame (unless the runtime collected it in between),
   and a third one yields nothing.
   */
  lemma {:induction false} TakeAfterFormat<F>(s: Session<F>, key: Key, frame: F, copy: F, dead: set<Key>)
    ensures var t1 := Take(Format(s, key, frame, copy), key);
      var t2 := Take(Collect(t1.rest, dead), key);
      var t3 := Take(t2.rest, key);
      && t1.frame == Some(copy)
      && t2.frame == (if key in dead then None else Some(frame))
      && t3.frame == None
  {
  }

  /**
   A retrieval never adds entries, and one that finds something removes
   exactly one entry, so a key can be retrieved at most as many times as
   it has entries.
   */
  lemma TakeShrinks<F>(s: Session<F>, key: Key)
    ensures var t := Take(s, key);
      t.frame.Some? <==> |t.rest.refs| + |t.rest.last| + 1 == |s.refs| + |s.last|
  {
  }

  /** The number of further retrievals of `key` that can still find something. */
  function Remaining<F>(s: Session<F>, key: Key): nat
  {
    (if key in s.last then 1 else 0) + (if key in s.refs then 1 else 0)
  }

  /** Take-once: each successful retrieval uses up one of the key's entries. */
  lemma TakeOnce<F>(s: Session<F>, key: Key)
    ensures var t := Take(s, key);
      if t.frame.Some? then Remaining(t.rest, key) + 1 == Remaining(s, key)
      else Remaining(s, key) == 0 && t.rest == s
  {
  }

  /** Retrieving one key leaves every other key's entries as they were. */
  lemma TakeLeavesOthers<F>(s: Session<F>, key: Key, other: Key)
    requires other != key
    ensures var t := Take(s, key);
      && (other in t.rest.refs <==> other in s.refs)
      && (other in t.rest.last <==> other in s.last)
      && (other in s.refs ==> t.rest.refs[other] == s.refs[other])
      && (other in s.last ==> t.rest.last[other] == s.last[other])
  {
  }

  /**
   However many frames are displayed, the convert callback is registered
   with the host exactly once.
   */
  lemma {:induction false} RegisteredOnce<F>(s: Session<F>, keys: seq<Key>, frames: seq<F>, copies: seq<F>)
    requires Inv(s)
    requires |keys| == |frames| == |copies| > 0
    requires forall i :: 0 <= i < |keys| ==> IsDfKey(keys[i])
    ensures var r := FormatAll(s, keys, frames, copies);
      Inv(r) && r.registrations == [ConvertFunc]
  {
    var n := |keys| - 1;
    if n == 0 {
      FormatInv(s, keys[0], frames[0], copies[0]);
    } else {
      RegisteredOnce(s, keys[..n], frames[..n], copies[..n]);
      var mid := FormatAll(s, keys[..n], frames[..n], copies[..n]);
      assert FormatAll(s, keys, frames, copies) == Format(mid, keys[n], frames[n], copies[n]);
      FormatInv(mid, keys[n], frames[n], copies[n]);
    }
  }

  /** Displaying the frames in order, from the first to the last. */
  function FormatAll<F>(s: Session<F>, keys: seq<Key>, frames: seq<F>, copies: seq<F>): Session<F>
    requires |keys| == |frames| == |copies|
  {
    if keys == [] then s
    else
      var n := |keys| - 1;
      Format(FormatAll(s, keys[..n], frames[..n], copies[..n]), keys[n], frames[n], copies[n])
  }
}
