/** Deleting every object under a preview prefix, page by page. */
module ObjectTeardown {
  import opened Text
  import opened ObjectStorage

  /** A listing page; `more` is the truncation flag, `token` continues after it. */
  datatype Page = Page(keys: seq<string>, more: bool, token: string)

  datatype Listing = ListFailed | Listed(page: Page)

  /** Status 0 means that no response came; `errors` counts per-object failures in the response, and is None for a
      body that does not decode. */
  datatype Reply = Reply(status: int, errors: Option<nat>, after: set<string>)

  /** The object store: its answers in a given bucket state, and the key each of its tokens stands for. */
  datatype Store = Store(
    list: (set<string>, string) -> Listing,
    batch: (set<string>, seq<string>) -> Reply,
    single: (set<string>, string) -> Reply,
    markerOf: string -> string)

  ghost predicate Beyond(st: Store, token: string, k: string) {
    token == "" || Less(st.markerOf(token), k)
  }

  function Under(bucket: set<string>, prefix: string): set<string> { set k | k in bucket && prefix <= k }

  /** Keys under the prefix that listings from this token have yet to show. */
  ghost function Unseen(st: Store, bucket: set<string>, prefix: string, token: string): set<string> {
    set k | k in bucket && prefix <= k && Beyond(st, token, k)
  }

  /** A conforming page: only keys under the prefix, every unseen key on it or beyond its token, and a truncated
      page moves past at least one key with a token free of surrounding blanks. */
  ghost predicate GoodPage(st: Store, bucket: set<string>, prefix: string, token: string, p: Page) {
    && Elems(p.keys) <= Under(bucket, prefix)
    && (forall k :: k in Unseen(st, bucket, prefix, token) ==> k in p.keys || (p.more && Beyond(st, p.token, k)))
    && (p.more ==> p.token != "" && TrimSpace(p.token) == p.token
                   && Unseen(st, bucket, prefix, p.token) < Unseen(st, bucket, prefix, token))
  }

  predicate Success(status: int) { 200 <= status < 300 }

  ghost predicate Conforming(st: Store, prefix: string) {
    && (forall b, t :: st.list(b, t).Listed? ==> GoodPage(st, b, prefix, t, st.list(b, t).page))
    && (forall b, ks :: GoodBatch(b, ks, st.batch(b, ks)))
    && (forall b, k :: GoodSingle(b, k, st.single(b, k)))
  }

  /** A batch removes at most the named keys: all of them on success without errors, none when not supported. */
  ghost predicate GoodBatch(b: set<string>, ks: seq<string>, r: Reply) {
    && b - Elems(ks) <= r.after <= b
    && (r.status == 405 || r.status == 501 ==> r.after == b)
    && (Success(r.status) && r.errors == Some(0) ==> r.after == b - Elems(ks))
  }

  /** Whether the client takes a batch reply for a success: a body that does not decode counts as one without errors. */
  predicate Accepted(r: Reply) { Success(r.status) && (r.errors.None? || r.errors == Some(0)) }

  /** An accepted reply means the whole batch is gone, for every conforming reply, exactly when its body decodes or
      there was nothing to remove. */
  lemma AcceptedMeansGoneExactly(b: set<string>, ks: seq<string>, status: int, errors: Option<nat>)
    requires Accepted(Reply(status, errors, b))
    ensures (forall after :: GoodBatch(b, ks, Reply(status, errors, after)) ==> after == b - Elems(ks))
       <==> errors.Some? || b - Elems(ks) == b
  {
    if errors.None? && b - Elems(ks) != b { assert GoodBatch(b, ks, Reply(status, errors, b)); }
  }

  /** The success replies of the store decode. */
  ghost predicate Decodes(st: Store) {
    forall b, ks :: Success(st.batch(b, ks).status) ==> st.batch(b, ks).errors.Some?
  }

  ghost predicate GoodSingle(b: set<string>, k: string, r: Reply) {
    && b - {k} <= r.after <= b
    && (Success(r.status) || r.status == 404 ==> r.after == b - {k})
  }

  predicate Deletes(r: Reply) { r.status == 404 || Success(r.status) }

  /** Deleted one after another, every one of them goes. */
  ghost predicate EachDeletes(st: Store, bucket: set<string>, keys: seq<string>) {
    forall i :: 0 <= i < |keys| ==> Deletes(st.single(bucket - Elems(keys[..i]), keys[i]))
  }

  /** The store does not know batch deletion. */
  predicate Unsupported(r: Reply) { r.status == 405 || r.status == 501 }

  /** The batch is accepted, or not supported while every single deletion works. */
  ghost predicate BatchWorks(st: Store, bucket: set<string>, keys: seq<string>) {
    Accepted(st.batch(bucket, keys)) || (Unsupported(st.batch(bucket, keys)) && EachDeletes(st, bucket, keys))
  }

  ghost predicate Lists(st: Store) { forall b, t :: st.list(b, t).Listed? }

  /** A store that does its part, batch deletion or not. */
  ghost predicate Serves(st: Store) { Lists(st) && forall b, ks :: BatchWorks(st, b, ks) }

  ghost predicate ServesSingles(st: Store) { Lists(st) && forall b, ks :: EachDeletes(st, b, ks) }

  /** A store without batch deletion serves as well as one with it, as long as single deletions work. */
  lemma FallbackServes(st: Store)
    requires Lists(st) && (forall b, k :: Deletes(st.single(b, k)))
    requires forall b, ks :: Accepted(st.batch(b, ks)) || Unsupported(st.batch(b, ks))
    ensures Serves(st) && ServesSingles(st)
  {
  }

  /** One request per object; an object that is already gone is no error. */
  method DeleteEach(st: Store, bucket: set<string>, keys: seq<string>, ghost prefix: string)
    returns (ok: bool, left: set<string>)
    requires Conforming(st, prefix)
    ensures bucket - Elems(keys) <= left <= bucket
    ensures ok ==> left == bucket - Elems(keys)
    ensures ok <==> EachDeletes(st, bucket, keys)
  {
    left := bucket;
    for i := 0 to |keys|
      invariant left == bucket - Elems(keys[..i])
      invariant forall j :: 0 <= j < i ==> Deletes(st.single(bucket - Elems(keys[..j]), keys[j]))
    {
      assert keys[..i + 1] == keys[..i] + [keys[i]];
      var r := st.single(left, keys[i]);
      assert GoodSingle(left, keys[i], r);
      left := r.after;
      if r.status != 404 && !Success(r.status) {
        assert keys[i] in Elems(keys) && Elems(keys[..i]) <= Elems(keys);
        return false, left;
      }
    }
    assert keys[..|keys|] == keys;
    ok := true;
  }

  /** Batch deletion, with the one-by-one fallback for stores that answer 405 or 501. */
  method DeleteBatch(st: Store, bucket: set<string>, keys: seq<string>, ghost prefix: string)
    returns (ok: bool, left: set<string>)
    requires Conforming(st, prefix)
    ensures bucket - Elems(keys) <= left <= bucket
    ensures ok ==> left == bucket - Elems(keys)
                   || (Accepted(st.batch(bucket, keys)) && st.batch(bucket, keys).errors.None?)
    ensures ok <==> BatchWorks(st, bucket, keys)
  {
    var r := st.batch(bucket, keys);
    assert GoodBatch(bucket, keys, r);
    if r.status == 405 || r.status == 501 {
      ok, left := DeleteEach(st, bucket, keys, prefix);
      return;
    }
    ok, left := Accepted(r), r.after;
  }

  /** What a teardown has done so far: only keys under the prefix are gone, and those left are still to be listed. */
  ghost predicate Progress(st: Store, start: set<string>, bucket: set<string>, prefix: string, token: string) {
    && OnlyUnderPrefix(start, bucket, prefix)
    && Unseen(st, bucket, prefix, token) == Under(bucket, prefix)
  }

  ghost predicate OnlyUnderPrefix(start: set<string>, bucket: set<string>, prefix: string) {
    start - Under(start, prefix) <= bucket <= start
  }

  /** Whatever of a page was deleted, the keys beyond its token get strictly fewer, and no other key is gone. */
  lemma PageShrinks(st: Store, start: set<string>, bucket: set<string>, left: set<string>,
                    prefix: string, token: string, p: Page)
    requires OnlyUnderPrefix(start, bucket, prefix) && GoodPage(st, bucket, prefix, token, p)
    requires bucket - Elems(p.keys) <= left <= bucket
    ensures OnlyUnderPrefix(start, left, prefix)
    ensures p.more ==> Unseen(st, left, prefix, p.token) < Unseen(st, bucket, prefix, token)
  {
    if p.more { assert Unseen(st, left, prefix, p.token) <= Unseen(st, bucket, prefix, p.token); }
  }

  lemma PageDone(st: Store, start: set<string>, bucket: set<string>, left: set<string>,
                 prefix: string, token: string, p: Page)
    requires Progress(st, start, bucket, prefix, token) && GoodPage(st, bucket, prefix, token, p)
    requires bucket - Elems(p.keys) <= left <= bucket
    ensures OnlyUnderPrefix(start, left, prefix)
    ensures left == bucket - Elems(p.keys) && p.more ==>
              && Progress(st, start, left, prefix, p.token)
              && Unseen(st, left, prefix, p.token) < Unseen(st, bucket, prefix, token)
    ensures left == bucket - Elems(p.keys) && !p.more ==> left == start - Under(start, prefix)
  {
    if left == bucket - Elems(p.keys) {
      forall k | k in Under(left, prefix) ensures p.more && Beyond(st, p.token, k) {
        assert k in Unseen(st, bucket, prefix, token);
      }
      if p.more {
        assert Unseen(st, left, prefix, p.token) <= Unseen(st, bucket, prefix, p.token);
      } else {
        assert Under(left, prefix) == {};
        forall k | k in left ensures k in start - Under(start, prefix) {
          assert k !in Under(left, prefix);
        }
      }
    }
  }

  function NonEmptyKeys(keys: seq<string>): (r: seq<string>)
    ensures forall k :: k in r <==> k in keys && k != ""
  {
    if keys == [] then []
    else (if keys[0] != "" then [keys[0]] else []) + NonEmptyKeys(keys[1..])
  }

  lemma NonEmptyUnder(keys: seq<string>, bucket: set<string>, prefix: string)
    requires prefix != "" && Elems(keys) <= Under(bucket, prefix)
    ensures Elems(NonEmptyKeys(keys)) == Elems(keys)
  {
    forall k | k in Elems(keys) ensures k in NonEmptyKeys(keys) {
      assert k in Under(bucket, prefix);
    }
  }

  /** Against a conforming listing and no other writer: terminates; without error the bucket has lost exactly the
      keys under the prefix if success replies decode, and in any case no other key. A store that serves gives none. */
  method TeardownS3(st: Store, start: set<string>, prefix: string) returns (ok: bool, bucket: set<string>)
    requires Conforming(st, prefix) && prefix != ""
    ensures OnlyUnderPrefix(start, bucket, prefix)
    ensures ok && Decodes(st) ==> bucket == start - Under(start, prefix)
    ensures Serves(st) ==> ok
  {
    bucket := start;
    var token := "";
    while true
      invariant OnlyUnderPrefix(start, bucket, prefix) && (Decodes(st) ==> Progress(st, start, bucket, prefix, token))
      decreases Unseen(st, bucket, prefix, token)
    {
      var listing := st.list(bucket, token);
      if listing.ListFailed? { return false, bucket; }
      var page := listing.page;
      var objs := NonEmptyKeys(page.keys);
      NonEmptyUnder(page.keys, bucket, prefix);
      ghost var before := bucket;
      ok := true;
      if |objs| > 0 { ok, bucket := DeleteBatch(st, bucket, objs, prefix); }
      PageShrinks(st, start, before, bucket, prefix, token, page);
      if Decodes(st) { PageDone(st, start, before, bucket, prefix, token, page); }
      if !ok { return; }
      if !page.more || TrimSpace(page.token) == "" { return true, bucket; }
      token := TrimSpace(page.token);
    }
  }

  /** GCS has no truncation flag: a page is the last one exactly when its token is blank. */
  ghost predicate BlankTokenEnds(st: Store) {
    forall b, t :: st.list(b, t).Listed? ==>
      (st.list(b, t).page.more <==> TrimSpace(st.list(b, t).page.token) != "")
  }

  /** The same for GCS, where a blank token ends the listing and objects are deleted one by one. */
  method TeardownGCS(st: Store, start: set<string>, prefix: string) returns (ok: bool, bucket: set<string>)
    requires Conforming(st, prefix) && prefix != ""
    requires BlankTokenEnds(st)
    ensures OnlyUnderPrefix(start, bucket, prefix)
    ensures ok ==> bucket == start - Under(start, prefix)
    ensures ServesSingles(st) ==> ok
  {
    bucket := start;
    var token := "";
    while true
      invariant Progress(st, start, bucket, prefix, token)
      decreases Unseen(st, bucket, prefix, token)
    {
      var listing := st.list(bucket, token);
      if listing.ListFailed? { return false, bucket; }
      var page := listing.page;
      var objs := NonEmptyKeys(page.keys);
      NonEmptyUnder(page.keys, bucket, prefix);
      ghost var before := bucket;
      ok, bucket := DeleteEach(st, bucket, objs, prefix);
      PageDone(st, start, before, bucket, prefix, token, page);
      if !ok { return; }
      if TrimSpace(page.token) == "" { return true, bucket; }
      token := TrimSpace(page.token);
    }
  }

  lemma PrefixNotEmpty(namespace: string, target: string, envName: string)
    ensures NamespacedKeyPrefix(namespace, target, envName) != ""
  {
  }

  /** The whole teardown of a route: a blank environment name is refused before anything is listed, and without a
      bucket or an endpoint there is nothing to do. */
  method Teardown(st: Store, start: set<string>, configured: bool, gcs: bool,
                  namespace: string, target: string, envName: string)
    returns (ok: bool, bucket: set<string>)
    requires Conforming(st, NamespacedKeyPrefix(namespace, target, envName))
    requires gcs ==> BlankTokenEnds(st)
    ensures TrimSpace(envName) == "" ==> !ok && bucket == start
    ensures TrimSpace(envName) != "" && !configured ==> ok && bucket == start
    ensures OnlyUnderPrefix(start, bucket, NamespacedKeyPrefix(namespace, target, envName))
    ensures ok && configured && (gcs || Decodes(st)) ==>
              bucket == start - Under(start, NamespacedKeyPrefix(namespace, target, envName))
    ensures TrimSpace(envName) != "" && (if gcs then ServesSingles(st) else Serves(st)) ==> ok
  {
    if TrimSpace(envName) == "" { return false, start; }
    if !configured { return true, start; }
    var prefix := NamespacedKeyPrefix(namespace, target, envName);
    PrefixNotEmpty(namespace, target, envName);
    if gcs {
      ok, bucket := TeardownGCS(st, start, prefix);
    } else {
      ok, bucket := TeardownS3(st, start, prefix);
    }
  }

  /** Objects of an environment in another namespace or under another name survive, error or not. */
  lemma OtherEnvironmentsSpared(ns: string, target: string, env: string, ns2: string, target2: string, env2: string,
                                start: set<string>, bucket: set<string>, k: string)
    requires '/' !in ns && '/' !in env && '/' !in ns2 && '/' !in env2
    requires FiledUnder(ns) != FiledUnder(ns2) || TrimSpace(env) != TrimSpace(env2)
    requires OnlyUnderPrefix(start, bucket, NamespacedKeyPrefix(ns, target, env))
    requires k in start && NamespacedKeyPrefix(ns2, target2, env2) <= k
    ensures k in bucket
  {
    var prefix := NamespacedKeyPrefix(ns, target, env);
    if k !in bucket {
      assert k in Under(start, prefix);
      StorageIsolation(ns, target, env, ns2, target2, env2, k);
    }
  }
}
