/** Key-prefix isolation for Redis and Valkey previews, and its SCAN + UNLINK teardown. */
module RedisTeardown {
  import opened Text
  import Resp

  // ----- the prefix of an environment

  function KeyPrefix(target: string, envName: string): string {
    "preview:" + (envName + ":" + TargetPart(target))
  }

  function TargetPart(target: string): string {
    var t := TrimSpace(target);
    if t == "" || t == "default" then "" else t + ":"
  }

  /** A key under the prefixes of two colon-free environments belongs to one environment. */
  lemma PrefixIsolation(target1: string, env1: string, target2: string, env2: string, key: string)
    requires ':' !in env1 && ':' !in env2
    requires KeyPrefix(target1, env1) <= key && KeyPrefix(target2, env2) <= key
    ensures env1 == env2
  {
    var rest1 := OpensWithName("preview:", env1, TargetPart(target1), key);
    var rest2 := OpensWithName("preview:", env2, TargetPart(target2), key);
    FirstField(':', env1, rest1, env2, rest2);
  }

  /** The target a route names; the default one has no name of its own. */
  function NamedTarget(target: string): string { if TrimSpace(target) == "default" then "" else TrimSpace(target) }

  /** Two targets of one environment can share a key exactly when they are the same or one of them is the default, whose
      prefix covers the whole environment. */
  lemma TargetsShareExactly(env: string, target1: string, target2: string)
    requires ':' !in NamedTarget(target1) && ':' !in NamedTarget(target2)
    ensures (exists key :: HasPrefix(key, KeyPrefix(target1, env)) && HasPrefix(key, KeyPrefix(target2, env)))
       <==> NamedTarget(target1) == NamedTarget(target2) || NamedTarget(target1) == "" || NamedTarget(target2) == ""
  {
    var n1, n2 := NamedTarget(target1), NamedTarget(target2);
    var open := "preview:" + (env + ":");
    TargetOpens(env, target1);
    TargetOpens(env, target2);
    var p1, p2 := KeyPrefix(target1, env), KeyPrefix(target2, env);
    if n1 == "" || n1 == n2 { assert HasPrefix(p2, p1) && HasPrefix(p2, p2); }
    if n2 == "" { assert HasPrefix(p1, p2) && HasPrefix(p1, p1); }
    if n1 != "" && n2 != "" {
      forall key | HasPrefix(key, p1) && HasPrefix(key, p2) ensures n1 == n2 {
        var rest1 := AfterPrefix(open, n1 + ":", key);
        var rest2 := AfterPrefix(open, n2 + ":", key);
        FirstField(':', n1, rest1, n2, rest2);
      }
    }
  }

  lemma TargetOpens(env: string, target: string)
    ensures KeyPrefix(target, env)
         == ("preview:" + (env + ":")) + if NamedTarget(target) == "" then "" else NamedTarget(target) + ":"
  {
  }

  lemma OpensWithName(p: string, name: string, tail: string, key: string) returns (rest: string)
    requires p + (name + ":" + tail) <= key
    ensures |p| <= |key| && key[|p|..] == name + [':'] + rest
  {
    var more := AfterPrefix(p, name + ":" + tail, key);
    rest := tail + more;
    assert (name + ":" + tail) + more == name + [':'] + rest;
  }

  // ----- glob patterns, by Redis's matching rules

  function Matches(p: string, s: string): bool
    decreases |p| + |s|
  {
    if p == [] then s == []
    else if p[0] == '*' then Matches(p[1..], s) || (s != [] && Matches(p, s[1..]))
    else if s == [] then false
    else if p[0] == '?' then Matches(p[1..], s[1..])
    else if p[0] == '[' then
      var negated := |p| >= 2 && p[1] == '^';
      var (rest, hit) := ScanClass(p[if negated then 2 else 1..], s[0], false);
      hit != negated && Matches(rest, s[1..])
    else if p[0] == '\\' && |p| >= 2 then s[0] == p[1] && Matches(p[2..], s[1..])
    else s[0] == p[0] && Matches(p[1..], s[1..])
  }

  /** The rest of a bracket class: what follows it, and whether c was in it. */
  function ScanClass(p: string, c: char, hit: bool): (r: (string, bool))
    ensures |r.0| <= |p|
  {
    if p == [] then ([], hit)
    else if p[0] == '\\' && |p| >= 2 then ScanClass(p[2..], c, hit || p[1] == c)
    else if p[0] == ']' then (p[1..], hit)
    else if |p| >= 3 && p[1] == '-' then
      ScanClass(p[3..], c, hit || p[0] <= c <= p[2] || p[2] <= c <= p[0])
    else ScanClass(p[1..], c, hit || p[0] == c)
  }

  predicate IsSpecial(c: char) { c == '*' || c == '?' || c == '[' || c == ']' || c == '\\' }

  function EscapeChar(c: char): string { if IsSpecial(c) then ['\\', c] else [c] }

  function Escape(s: string): string {
    if s == [] then "" else EscapeChar(s[0]) + Escape(s[1..])
  }

  method EscapeGlob(s: string) returns (b: string)
    ensures b == Escape(s)
  {
    b := "";
    assert s[0..] == s;
    for i := 0 to |s|
      invariant Escape(s) == b + Escape(s[i..])
    {
      ghost var b0 := b;
      if IsSpecial(s[i]) { b := b + ['\\']; }
      b := b + [s[i]];
      assert b == b0 + EscapeChar(s[i]);
      assert s[i..][1..] == s[i + 1..];
      Regroup(b0, EscapeChar(s[i]), Escape(s[i + 1..]));
    }
  }

  lemma {:induction false} StarMatchesAll(s: string)
    ensures Matches("*", s)
  {
    if s != [] { StarMatchesAll(s[1..]); }
  }

  /** The escaped prefix plus a star matches exactly the keys that start with the prefix. */
  lemma {:induction false} EscapedPrefixExact(prefix: string, key: string)
    ensures Matches(Escape(prefix) + "*", key) <==> prefix <= key
  {
    var p := Escape(prefix) + "*";
    if prefix == [] {
      assert p == "*";
      StarMatchesAll(key);
    } else {
      var rest := Escape(prefix[1..]) + "*";
      if IsSpecial(prefix[0]) {
        assert p[0] == '\\' && p[1] == prefix[0] && p[2..] == rest;
      } else {
        assert p[0] == prefix[0] && p[1..] == rest;
      }
      if key != [] {
        EscapedPrefixExact(prefix[1..], key[1..]);
        assert prefix == [prefix[0]] + prefix[1..] && key == [key[0]] + key[1..];
      }
    }
  }

  // ----- the conversation with the server

  /** A reply, or the text of the error the client got instead. */
  datatype Outcome = Ok(value: Resp.Value) | Fail(text: string)

  /** One command as the server lived it: the keys that were missing at some moment since the turn before, the
      keyspace it met, what it answered, what it left. */
  datatype Exchange = Exchange(args: seq<string>, missed: set<string>, before: set<string>, out: Outcome,
                               after: set<string>)

  /** The server's side of an exchange still to come; other clients act between turns. */
  datatype Turn = Turn(missed: set<string>, before: set<string>, out: Outcome, after: set<string>)

  /** The connection: turns to come (none left once the deadline passed) and exchanges made. */
  datatype Conn = Conn(peer: seq<Turn>, log: seq<Exchange>)

  function Send(c: Conn, args: seq<string>): (Outcome, Conn) {
    if c.peer == [] then (Fail("i/o timeout"), c)
    else
      var t := c.peer[0];
      (t.out, Conn(c.peer[1..], c.log + [Exchange(args, t.missed, t.before, t.out, t.after)]))
  }

  predicate IsDelete(e: Exchange) { e.args != [] && (e.args[0] == "UNLINK" || e.args[0] == "DEL") }
  predicate IsScan(e: Exchange) { |e.args| == 6 && e.args[0] == "SCAN" }

  /** Deletion removes exactly the named keys when it succeeds, at most them when it fails;
      nothing else changes the keyspace. */
  ghost predicate Obeys(e: Exchange) {
    if IsDelete(e) then
      && e.before - Elems(e.args[1..]) <= e.after <= e.before
      && (e.out.Ok? ==> e.after == e.before - Elems(e.args[1..]))
    else e.after == e.before
  }

  predicate UnknownCommand(text: string) {
    Contains(ToLower(text), "unknown command") || Contains(ToLower(text), "noperm")
  }
  predicate CrossSlot(text: string) { Contains(ToLower(text), "crossslot") }

  /** Since the first exchanges of a log, only deletions of keys among the given ones were sent. */
  ghost predicate OnlyDeletes(log: seq<Exchange>, from: nat, keys: seq<string>) {
    forall i :: from <= i < |log| ==> IsDelete(log[i]) && Elems(log[i].args[1..]) <= Elems(keys)
  }

  /** Since then, key k was named in a deletion that succeeded. */
  ghost predicate Deleted(log: seq<Exchange>, from: nat, k: string) {
    exists i :: from <= i < |log| && IsDelete(log[i]) && log[i].out.Ok? && k in log[i].args[1..]
  }

  ghost predicate Continues(c: Conn, d: Conn) {
    c.log <= d.log && |d.peer| <= |c.peer| && |d.log| + |d.peer| == |c.log| + |c.peer|
  }

  /** Since the first exchanges, deletions were answered like this. */
  ghost predicate Follows(log: seq<Exchange>, from: nat, answer: seq<string> -> Outcome) {
    forall i :: from <= i < |log| && IsDelete(log[i]) ==> log[i].out == answer(log[i].args)
  }

  /** The key goes on its own: by the given command, or by DEL where UNLINK is not known. */
  predicate Goes(answer: seq<string> -> Outcome, verb: string, k: string) {
    var r := answer([verb] + [k]);
    r.Ok? || (verb == "UNLINK" && UnknownCommand(r.text) && answer(["DEL"] + [k]).Ok?)
  }

  predicate EachGoes(answer: seq<string> -> Outcome, verb: string, keys: seq<string>) {
    forall i :: 0 <= i < |keys| ==> Goes(answer, verb, keys[i])
  }

  /** A server that can be asked for the batch in one of the four ways: by UNLINK; by DEL, where UNLINK is not known; or
      key by key, where either refuses keys of several slots. */
  predicate Evicts(answer: seq<string> -> Outcome, keys: seq<string>) {
    keys == []
    || (var r := answer(["UNLINK"] + keys);
        || r.Ok?
        || (UnknownCommand(r.text) && answer(["DEL"] + keys).Ok?)
        || (UnknownCommand(r.text) && CrossSlot(answer(["DEL"] + keys).text) && EachGoes(answer, "DEL", keys))
        || (!UnknownCommand(r.text) && CrossSlot(r.text) && EachGoes(answer, "UNLINK", keys)))
  }

  method SendDelete(c: Conn, verb: string, ks: seq<string>, ghost keys: seq<string>, ghost from: nat,
                    ghost answer: seq<string> -> Outcome)
    returns (out: Outcome, d: Conn)
    requires verb == "UNLINK" || verb == "DEL"
    requires from <= |c.log| && OnlyDeletes(c.log, from, keys) && Elems(ks) <= Elems(keys)
    ensures Continues(c, d) && OnlyDeletes(d.log, from, keys)
    ensures out.Ok? ==> forall k :: k in ks ==> Deleted(d.log, from, k)
    ensures c.peer != [] && Follows(d.log, from, answer) ==> out == answer([verb] + ks)
  {
    var r := Send(c, [verb] + ks);
    out, d := r.0, r.1;
    assert ([verb] + ks)[1..] == ks;
    assert c.peer != [] ==> d.log[|c.log|].args == [verb] + ks && d.log[|c.log|].out == out;
    if out.Ok? {
      forall k | k in ks ensures Deleted(d.log, from, k) {
        assert IsDelete(d.log[|c.log|]);
      }
    }
  }

  lemma DeletedGrows(c: seq<Exchange>, d: seq<Exchange>, from: nat, k: string)
    requires c <= d && Deleted(c, from, k)
    ensures Deleted(d, from, k)
  {
    var i :| from <= i < |c| && IsDelete(c[i]) && c[i].out.Ok? && k in c[i].args[1..];
    assert d[i] == c[i];
  }

  /** One command per key, as after a CROSSSLOT refusal; UNLINK falls back to DEL key by key. */
  method EvictOneByOne(c: Conn, verb: string, keys: seq<string>, ghost from: nat, ghost answer: seq<string> -> Outcome)
    returns (err: Option<string>, d: Conn)
    requires verb == "UNLINK" || verb == "DEL"
    requires from <= |c.log| && OnlyDeletes(c.log, from, keys)
    ensures Continues(c, d) && OnlyDeletes(d.log, from, keys)
    ensures err.None? ==> forall k :: k in keys ==> Deleted(d.log, from, k)
    ensures d.peer != [] && Follows(d.log, from, answer) ==> (err.None? <==> EachGoes(answer, verb, keys))
  {
    err, d := None, c;
    for i := 0 to |keys|
      invariant Continues(c, d) && OnlyDeletes(d.log, from, keys)
      invariant d.peer != [] && Follows(d.log, from, answer) ==> EachGoes(answer, verb, keys[..i])
      invariant forall k :: k in keys[..i] ==> Deleted(d.log, from, k)
    {
      var k := keys[i];
      assert keys[..i + 1] == keys[..i] + [k];
      assert Elems([k]) <= Elems(keys);
      ghost var d0 := d;
      var out;
      out, d := SendDelete(d, verb, [k], keys, from, answer);
      if out.Fail? {
        if verb == "DEL" || !UnknownCommand(out.text) { return Some("redis " + verb + " " + k + " failed"), d; }
        out, d := SendDelete(d, "DEL", [k], keys, from, answer);
        if out.Fail? { return Some("redis DEL " + k + " failed"), d; }
      }
      assert k in [k];
      forall j | j in keys[..i] ensures Deleted(d.log, from, j) {
        DeletedGrows(d0.log, d.log, from, j);
      }
    }
    assert keys[..|keys|] == keys;
  }

  /** Nil means every key of the batch was named in a deletion that succeeded, whichever
      fallback was taken; no other key is ever named. A server that answers in time yields nil exactly when it can be
      asked for the batch in one of the four ways. */
  method Evict(c: Conn, keys: seq<string>, ghost answer: seq<string> -> Outcome) returns (err: Option<string>, d: Conn)
    ensures Continues(c, d) && OnlyDeletes(d.log, |c.log|, keys)
    ensures err.None? ==> forall k :: k in keys ==> Deleted(d.log, |c.log|, k)
    ensures d.peer != [] && Follows(d.log, |c.log|, answer) ==> (err.None? <==> Evicts(answer, keys))
  {
    if |keys| == 0 { return None, c; }
    ghost var from := |c.log|;
    var out;
    out, d := SendDelete(c, "UNLINK", keys, keys, from, answer);
    if out.Ok? { return None, d; }
    if UnknownCommand(out.text) {
      var del;
      del, d := SendDelete(d, "DEL", keys, keys, from, answer);
      if del.Ok? { return None, d; }
      if !CrossSlot(del.text) { return Some("redis DEL failed"), d; }
      err, d := EvictOneByOne(d, "DEL", keys, from, answer);
    } else if CrossSlot(out.text) {
      err, d := EvictOneByOne(d, "UNLINK", keys, from, answer);
    } else {
      return Some("redis UNLINK failed"), d;
    }
  }

  // ----- SCAN replies

  predicate IsScanReply(v: Resp.Value) { v.Arr? && |v.items| == 2 && v.items[0].Str? }

  /** The nonempty string keys of a SCAN reply's second element. */
  function ReplyKeys(items: seq<Resp.Value>): seq<string> {
    if items == [] then [] else KeyOf(items[0]) + ReplyKeys(items[1..])
  }

  function KeyOf(v: Resp.Value): seq<string> { if v.Str? && v.s != "" then [v.s] else [] }

  function ScanKeys(v: Resp.Value): seq<string>
    requires IsScanReply(v)
  {
    if v.items[1].Arr? then ReplyKeys(v.items[1].items) else []
  }

  method CollectKeys(rawKeys: seq<Resp.Value>) returns (keys: seq<string>)
    ensures keys == ReplyKeys(rawKeys)
  {
    keys := [];
    assert rawKeys[0..] == rawKeys;
    for i := 0 to |rawKeys|
      invariant ReplyKeys(rawKeys) == keys + ReplyKeys(rawKeys[i..])
    {
      assert rawKeys[i..][1..] == rawKeys[i + 1..];
      Regroup(keys, KeyOf(rawKeys[i]), ReplyKeys(rawKeys[i + 1..]));
      if rawKeys[i].Str? && rawKeys[i].s != "" {
        keys := keys + [rawKeys[i].s];
      } else {
        assert keys + [] == keys;
      }
    }
  }

  predicate GoodScan(e: Exchange) { IsScan(e) && e.out.Ok? && IsScanReply(e.out.value) }

  ghost predicate Reported(log: seq<Exchange>, k: string) {
    exists i :: 0 <= i < |log| && GoodScan(log[i]) && k in ScanKeys(log[i].out.value)
  }

  function Scans(log: seq<Exchange>): (r: seq<Exchange>)
    ensures forall e :: e in r ==> IsScan(e)
  {
    if log == [] then []
    else Scans(log[..|log| - 1]) + (if IsScan(log[|log| - 1]) then [log[|log| - 1]] else [])
  }

  ghost predicate GoodChain(scans: seq<Exchange>, pattern: string) {
    && scans != []
    && (forall i :: 0 <= i < |scans| ==> GoodScan(scans[i]))
    && (forall i :: 0 <= i < |scans| ==> scans[i].args[3] == pattern)
    && scans[0].args[1] == "0"
    && (forall i :: 0 < i < |scans| ==> scans[i].args[1] == scans[i - 1].out.value.items[0].s)
  }

  /** The scans of the log follow the cursor from "0" back to "0". */
  ghost predicate FullIteration(log: seq<Exchange>, pattern: string) {
    var scans := Scans(log);
    GoodChain(scans, pattern) && scans[|scans| - 1].out.value.items[0].s == "0"
  }

  /** The key was there from the first turn to the last, between the turns as well. */
  ghost predicate Throughout(log: seq<Exchange>, k: string) {
    && (forall i :: 0 <= i < |log| ==> k in log[i].before && k in log[i].after)
    && (forall i :: 0 < i < |log| ==> k !in log[i].missed)
  }

  /** Redis's promise: a full iteration reports every matching key present throughout it. */
  ghost predicate ScanGuarantee(log: seq<Exchange>, pattern: string) {
    FullIteration(log, pattern) ==> forall k :: Matches(pattern, k) && Throughout(log, k) ==> Reported(log, k)
  }

  /** A server that keeps its promises on this conversation. */
  ghost predicate Conforming(log: seq<Exchange>, pattern: string) {
    && (forall e :: e in log ==> Obeys(e))
    && (forall k :: Reported(log, k) ==> Matches(pattern, k))
    && ScanGuarantee(log, pattern)
  }

  /** What one teardown did, whatever the server answered. */
  ghost predicate TeardownRun(pattern: string, err: Option<string>, log: seq<Exchange>) {
    && (forall i :: 0 <= i < |log| ==>
          IsScan(log[i]) || (IsDelete(log[i]) && forall k :: k in log[i].args[1..] ==> Reported(log, k)))
    && (err.None? ==> FullIteration(log, pattern))
    && (err.None? ==> forall k :: Reported(log, k) ==> Deleted(log, 0, k))
  }

  lemma {:induction false} ScansConcat(a: seq<Exchange>, b: seq<Exchange>)
    requires forall e :: e in b ==> !IsScan(e)
    ensures Scans(a + b) == Scans(a)
  {
    if b == [] {
      assert a + b == a;
    } else {
      assert (a + b)[..|a + b| - 1] == a + b[..|b| - 1];
      ScansConcat(a, b[..|b| - 1]);
    }
  }

  lemma ReportedGrows(c: seq<Exchange>, d: seq<Exchange>, k: string)
    requires c <= d && Reported(c, k)
    ensures Reported(d, k)
  {
    var i :| 0 <= i < |c| && GoodScan(c[i]) && k in ScanKeys(c[i].out.value);
    assert d[i] == c[i];
  }

  /** After a round every reported key of the log so far has been deleted. */
  ghost predicate RoundDone(log: seq<Exchange>, pattern: string, cursor: string) {
    && TeardownShape(log)
    && (forall k :: Reported(log, k) ==> Deleted(log, 0, k))
    && (if log == [] then cursor == "0"
        else GoodChain(Scans(log), pattern) && Scans(log)[|Scans(log)| - 1].out.value.items[0].s == cursor)
  }

  ghost predicate TeardownShape(log: seq<Exchange>) {
    forall i :: 0 <= i < |log| ==>
      IsScan(log[i]) || (IsDelete(log[i]) && forall k :: k in log[i].args[1..] ==> Reported(log, k))
  }

  lemma ScanShape(log: seq<Exchange>, e: Exchange)
    requires TeardownShape(log) && IsScan(e)
    ensures TeardownShape(log + [e])
    ensures forall k :: Reported(log + [e], k) ==> Reported(log, k) || (GoodScan(e) && k in ScanKeys(e.out.value))
  {
    var l := log + [e];
    forall i | 0 <= i < |l|
      ensures IsScan(l[i]) || (IsDelete(l[i]) && forall k :: k in l[i].args[1..] ==> Reported(l, k))
    {
      if i < |log| && !IsScan(log[i]) {
        forall k | k in log[i].args[1..] ensures Reported(l, k) { ReportedGrows(log, l, k); }
      }
    }
  }

  lemma ScanChains(log: seq<Exchange>, e: Exchange, pattern: string, cursor: string)
    requires RoundDone(log, pattern, cursor) && GoodScan(e) && e.args[1] == cursor && e.args[3] == pattern
    ensures Scans(log + [e]) == Scans(log) + [e] && GoodChain(Scans(log + [e]), pattern)
  {
    assert (log + [e])[..|log|] == log;
    if log == [] { assert Scans(log) == []; }
  }

  lemma AfterEvict(log: seq<Exchange>, d: seq<Exchange>, keys: seq<string>, e: Exchange)
    requires log != [] && log[|log| - 1] == e && GoodScan(e) && keys == ScanKeys(e.out.value)
    requires TeardownShape(log) && log <= d && OnlyDeletes(d, |log|, keys)
    ensures TeardownShape(d) && Scans(d) == Scans(log)
    ensures forall k :: Reported(d, k) <==> Reported(log, k)
  {
    assert d == log + d[|log|..];
    assert forall x :: x in d[|log|..] ==> IsDelete(x);
    ScansConcat(log, d[|log|..]);
    forall k | Reported(log, k) ensures Reported(d, k) { ReportedGrows(log, d, k); }
    forall k | Reported(d, k) ensures Reported(log, k) {
      var i :| 0 <= i < |d| && GoodScan(d[i]) && k in ScanKeys(d[i].out.value);
      assert d[i] == log[i];
    }
    forall i | 0 <= i < |d|
      ensures IsScan(d[i]) || (IsDelete(d[i]) && forall k :: k in d[i].args[1..] ==> Reported(d, k))
    {
      if i < |log| {
        assert d[i] == log[i];
      } else {
        forall k | k in d[i].args[1..] ensures Reported(d, k) {
          assert k in Elems(keys);
          assert log[|log| - 1] == e;
        }
      }
    }
  }

  /** One page: SCAN from the cursor, then evict what it reported. */
  method Round(c: Conn, pattern: string, cursor: string, ghost answer: seq<string> -> Outcome)
    returns (err: Option<string>, nextCursor: string, d: Conn)
    requires RoundDone(c.log, pattern, cursor) && c.peer != []
    ensures Continues(c, d)
    ensures d.peer != [] && Serves(d.log, answer) ==> err.None?
    ensures TeardownShape(d.log) && |d.peer| < |c.peer|
    ensures err.None? ==> d.log != [] && RoundDone(d.log, pattern, nextCursor)
  {
    nextCursor := "";
    var r := Send(c, ["SCAN", cursor, "MATCH", pattern, "COUNT", "500"]);
    var val, sent := r.0, r.1;
    ghost var e := sent.log[|c.log|];
    assert sent.log == c.log + [e];
    ScanShape(c.log, e);
    if val.Fail? || !IsScanReply(val.value) { return Some("unexpected SCAN response"), "", sent; }
    ScanChains(c.log, e, pattern, cursor);
    nextCursor := val.value.items[0].s;
    var keys := [];
    if val.value.items[1].Arr? { keys := CollectKeys(val.value.items[1].items); }
    err, d := Evict(sent, keys, answer);
    AfterEvict(sent.log, d.log, keys, e);
    if err.None? { AllDeleted(c.log, sent.log, d.log, keys); }
  }

  /** A server that does its part on this conversation: every SCAN gets a proper reply, and any batch can be deleted. */
  ghost predicate Serves(log: seq<Exchange>, answer: seq<string> -> Outcome) {
    && (forall i :: 0 <= i < |log| && IsScan(log[i]) ==> GoodScan(log[i]))
    && Follows(log, 0, answer) && forall ks :: Evicts(answer, ks)
  }

  /** The SCAN loop, until the cursor is back at "0". A server that does its part before the deadline yields nil. */
  method Teardown(prefix: string, peer: seq<Turn>, ghost answer: seq<string> -> Outcome)
    returns (err: Option<string>, log: seq<Exchange>)
    ensures TeardownRun(Escape(prefix) + "*", err, log)
    ensures |log| < |peer| && Serves(log, answer) ==> err.None?
  {
    var escaped := EscapeGlob(prefix);
    var pattern := escaped + "*";
    var cursor := "0";
    var c := Conn(peer, []);
    while true
      invariant RoundDone(c.log, pattern, cursor) && |c.log| + |c.peer| == |peer|
      decreases |c.peer|
    {
      if c.peer == [] { return Some("redis SCAN failed"), c.log; }
      var nextCursor;
      err, nextCursor, c := Round(c, pattern, cursor, answer);
      if err.Some? { return err, c.log; }
      if nextCursor == "0" { return None, c.log; }
      cursor := nextCursor;
    }
  }

  lemma AllDeleted(before: seq<Exchange>, scanned: seq<Exchange>, d: seq<Exchange>, keys: seq<string>)
    requires before <= scanned <= d
    requires forall k :: Reported(before, k) ==> Deleted(before, 0, k)
    requires forall k :: Reported(d, k) ==> Reported(before, k) || k in keys
    requires forall k :: k in keys ==> Deleted(d, |scanned|, k)
    ensures forall k :: Reported(d, k) ==> Deleted(d, 0, k)
  {
    forall k | Reported(d, k) ensures Deleted(d, 0, k) {
      if k in keys {
        var i :| |scanned| <= i < |d| && IsDelete(d[i]) && d[i].out.Ok? && k in d[i].args[1..];
        assert Deleted(d, 0, k);
      } else {
        DeletedGrows(before, d, 0, k);
      }
    }
  }

  // ----- what a teardown achieves

  /** No key outside the prefix is removed by any step, whatever the outcome. */
  lemma OnlyPrefixTouched(prefix: string, err: Option<string>, log: seq<Exchange>, e: Exchange, k: string)
    requires TeardownRun(Escape(prefix) + "*", err, log) && Conforming(log, Escape(prefix) + "*")
    requires e in log && k in e.before && k !in e.after
    ensures prefix <= k
  {
    var i :| 0 <= i < |log| && log[i] == e;
    assert Obeys(e) && k in Elems(e.args[1..]);
    EscapedPrefixExact(prefix, k);
  }

  /** So no key of an environment with another colon-free name is ever removed. */
  lemma OtherEnvironmentsSpared(target: string, env: string, target2: string, env2: string,
                                err: Option<string>, log: seq<Exchange>, e: Exchange, k: string)
    requires ':' !in env && ':' !in env2 && env != env2
    requires TeardownRun(Escape(KeyPrefix(target, env)) + "*", err, log)
    requires Conforming(log, Escape(KeyPrefix(target, env)) + "*")
    requires e in log && k in e.before && KeyPrefix(target2, env2) <= k
    ensures k in e.after
  {
    if k !in e.after {
      OnlyPrefixTouched(KeyPrefix(target, env), err, log, e, k);
      PrefixIsolation(target, env, target2, env2, k);
    }
  }

  /** Nil means no key under the prefix was present throughout. */
  lemma NothingSurvives(prefix: string, log: seq<Exchange>, k: string)
    requires TeardownRun(Escape(prefix) + "*", None, log) && Conforming(log, Escape(prefix) + "*")
    requires prefix <= k
    ensures !Throughout(log, k)
  {
    EscapedPrefixExact(prefix, k);
    if Reported(log, k) {
      var i :| 0 <= i < |log| && IsDelete(log[i]) && log[i].out.Ok? && k in log[i].args[1..];
      assert log[i] in log && Obeys(log[i]) && k !in log[i].after;
    }
  }

  /** Nobody else writes between the steps. */
  ghost predicate Quiet(log: seq<Exchange>) {
    forall i :: 0 < i < |log| ==> log[i].before == log[i - 1].after && log[i].missed !! log[i].before
  }

  lemma {:induction false} QuietShrinks(log: seq<Exchange>, i: nat, j: nat)
    requires Quiet(log) && (forall e :: e in log ==> Obeys(e)) && i <= j < |log|
    ensures log[j].after <= log[i].after <= log[i].before
    decreases j - i
  {
    assert log[j] in log && log[i] in log;
    if i < j { QuietShrinks(log, i, j - 1); }
  }

  lemma GoneForGood(log: seq<Exchange>, i: nat, k: string)
    requires Quiet(log) && (forall e :: e in log ==> Obeys(e)) && i < |log|
    requires k !in log[i].before || k !in log[i].after || (0 < i && k in log[i].missed)
    ensures k !in log[|log| - 1].after
  {
    QuietShrinks(log, i, |log| - 1);
  }

  lemma {:induction false} QuietKeeps(prefix: string, err: Option<string>, log: seq<Exchange>, j: nat, k: string)
    requires TeardownRun(Escape(prefix) + "*", err, log) && Conforming(log, Escape(prefix) + "*")
    requires Quiet(log) && j < |log| && k in log[0].before && !(prefix <= k)
    ensures k in log[j].after
    decreases j
  {
    if j > 0 { QuietKeeps(prefix, err, log, j - 1, k); }
    if k !in log[j].after { OnlyPrefixTouched(prefix, err, log, log[j], k); }
  }

  /** With no other writer, nil leaves the keyspace minus exactly the keys under the prefix. */
  lemma QuietTeardownExact(prefix: string, log: seq<Exchange>)
    requires TeardownRun(Escape(prefix) + "*", None, log) && Conforming(log, Escape(prefix) + "*") && Quiet(log)
    ensures log != []
    ensures log[|log| - 1].after == set k | k in log[0].before && !(prefix <= k)
  {
    assert log != [] by { assert Scans([]) == []; }
    var last := |log| - 1;
    QuietShrinks(log, 0, last);
    forall k | k in log[0].before ensures k in log[last].after <==> !(prefix <= k) {
      if !(prefix <= k) {
        QuietKeeps(prefix, None, log, last, k);
      } else {
        NothingSurvives(prefix, log, k);
        var i :| 0 <= i < |log| && (k !in log[i].before || k !in log[i].after || (0 < i && k in log[i].missed));
        GoneForGood(log, i, k);
      }
    }
  }
}
