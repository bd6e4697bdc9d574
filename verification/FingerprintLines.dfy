/** Reading a fingerprint text line by line and object by object. */
module FingerprintLines {
  import opened Text
  import opened Fingerprint
  import opened FingerprintReading

  // ----- lines

  function Unlines(ls: seq<string>): string {
    if ls == [] then "" else ls[0] + "\n" + Unlines(ls[1..])
  }

  ghost predicate AllPlain(ls: seq<string>) { forall i :: 0 <= i < |ls| ==> '\n' !in ls[i] }

  lemma {:induction false} UnlinesConcat(xs: seq<string>, ys: seq<string>)
    ensures Unlines(xs + ys) == Unlines(xs) + Unlines(ys)
    decreases |xs|
  {
    if xs == [] {
      assert xs + ys == ys;
    } else {
      assert (xs + ys)[1..] == xs[1..] + ys;
      UnlinesConcat(xs[1..], ys);
      Regroup(xs[0] + "\n", Unlines(xs[1..]), Unlines(ys));
    }
  }

  lemma OneLine(l: string)
    ensures Unlines([l]) == l + "\n"
  {
    assert [l][1..] == [];
  }

  /** A text of lines can be read back. */
  lemma {:induction false} UnlinesApart(xs: seq<string>, ys: seq<string>)
    requires AllPlain(xs) && AllPlain(ys) && Unlines(xs) == Unlines(ys)
    ensures xs == ys
    decreases |xs|
  {
    if xs != [] && ys != [] {
      assert Unlines(xs) == xs[0] + ['\n'] + Unlines(xs[1..]) && Unlines(ys) == ys[0] + ['\n'] + Unlines(ys[1..]);
      FirstField('\n', xs[0], Unlines(xs[1..]), ys[0], Unlines(ys[1..]));
      UnlinesApart(xs[1..], ys[1..]);
      assert xs == [xs[0]] + xs[1..] && ys == [ys[0]] + ys[1..];
    }
  }

  // ----- lists of things, each of some lines

  lemma {:induction false} FlatConcat<T>(xs: seq<T>, ys: seq<T>, f: T -> seq<string>)
    ensures Flat(xs + ys, f) == Flat(xs, f) + Flat(ys, f)
    decreases |xs|
  {
    if xs == [] {
      assert xs + ys == ys;
    } else {
      assert (xs + ys)[1..] == xs[1..] + ys;
      FlatConcat(xs[1..], ys, f);
      Regroup(f(xs[0]), Flat(xs[1..], f), Flat(ys, f));
    }
  }

  lemma FlatOne<T>(x: T, f: T -> seq<string>)
    ensures Flat([x], f) == f(x)
  {
    assert [x][1..] == [];
  }

  lemma PlainConcat(xs: seq<string>, ys: seq<string>)
    requires AllPlain(xs) && AllPlain(ys)
    ensures AllPlain(xs + ys)
  {
  }

  lemma {:induction false} FlatPlain<T>(xs: seq<T>, f: T -> seq<string>)
    requires forall i :: 0 <= i < |xs| ==> AllPlain(f(xs[i]))
    ensures AllPlain(Flat(xs, f))
    decreases |xs|
  {
    if xs != [] { FlatPlain(xs[1..], f); }
  }

  lemma {:induction false} TextsAreLines<T>(xs: seq<T>, text: T -> string, f: T -> seq<string>)
    requires forall x :: text(x) == Unlines(f(x))
    ensures Texts(xs, text) == Unlines(Flat(xs, f))
    decreases |xs|
  {
    if xs != [] {
      TextsAreLines(xs[1..], text, f);
      UnlinesConcat(f(xs[0]), Flat(xs[1..], f));
    }
  }

  // ----- tags

  function TagOf(line: string): string {
    if line == [] || line[0] == ':' then "" else [line[0]] + TagOf(line[1..])
  }

  lemma {:induction false} TagOfTagged(tag: string, rest: string)
    requires ':' !in tag
    ensures TagOf(tag + ":" + rest) == tag
    decreases |tag|
  {
    var line := tag + ":" + rest;
    if tag == "" {
      assert line[0] == ':';
    } else {
      assert line[0] == tag[0] && line[1..] == tag[1..] + ":" + rest;
      TagOfTagged(tag[1..], rest);
    }
  }

  ghost predicate Tagged(ls: seq<string>, tag: string) { forall i :: 0 <= i < |ls| ==> TagOf(ls[i]) == tag }

  ghost predicate StartsOther(ls: seq<string>, tag: string) { ls == [] || TagOf(ls[0]) != tag }

  /** A stretch of lines of one tag ends where another tag begins. */
  lemma {:induction false} SplitByTag(tag: string, a: seq<string>, x: seq<string>, b: seq<string>, y: seq<string>)
    requires Tagged(a, tag) && Tagged(b, tag) && StartsOther(x, tag) && StartsOther(y, tag) && a + x == b + y
    ensures a == b && x == y
    decreases |a|
  {
    if a == [] || b == [] {
      assert [] + x == x && [] + y == y;
      assert a == [] ==> a + x == x;
      assert b == [] ==> b + y == y;
    } else {
      assert (a + x)[0] == a[0] && (b + y)[0] == b[0];
      assert (a + x)[1..] == a[1..] + x && (b + y)[1..] == b[1..] + y;
      SplitByTag(tag, a[1..], x, b[1..], y);
      assert a == [a[0]] + a[1..] && b == [b[0]] + b[1..];
    }
  }

  // ----- blocks: a line with a head tag and lines without one

  ghost predicate IsBlock(ls: seq<string>, heads: set<string>) {
    ls != [] && TagOf(ls[0]) in heads && forall i :: 0 < i < |ls| ==> TagOf(ls[i]) !in heads
  }

  ghost predicate StartsBlock(ls: seq<string>, heads: set<string>) { ls == [] || TagOf(ls[0]) in heads }

  lemma SameBlock(heads: set<string>, a: seq<string>, x: seq<string>, b: seq<string>, y: seq<string>)
    requires IsBlock(a, heads) && IsBlock(b, heads) && StartsBlock(x, heads) && StartsBlock(y, heads)
    requires a + x == b + y
    ensures a == b && x == y
  {
    var s := a + x;
    assert forall i :: 0 <= i < |a| ==> s[i] == a[i];
    assert forall i :: 0 <= i < |b| ==> s[i] == b[i];
    assert x != [] ==> s[|a|] == x[0];
    assert y != [] ==> s[|b|] == y[0];
    assert a == s[..|a|] && b == s[..|b|] && x == s[|a|..] && y == s[|b|..];
  }

  lemma FlatStartsBlock<T>(xs: seq<T>, f: T -> seq<string>, heads: set<string>)
    requires forall i :: 0 <= i < |xs| ==> IsBlock(f(xs[i]), heads)
    ensures StartsBlock(Flat(xs, f), heads) && (Flat(xs, f) == [] <==> xs == [])
  {
  }

  /** A list of blocks can be read back, block by block. */
  lemma {:induction false} BlocksApart<T>(xs: seq<T>, ys: seq<T>, f: T -> seq<string>, heads: set<string>)
    requires forall i :: 0 <= i < |xs| ==> IsBlock(f(xs[i]), heads)
    requires forall i :: 0 <= i < |ys| ==> IsBlock(f(ys[i]), heads)
    requires Flat(xs, f) == Flat(ys, f)
    ensures |xs| == |ys| && forall i :: 0 <= i < |xs| ==> f(xs[i]) == f(ys[i])
    decreases |xs|
  {
    FlatStartsBlock(xs, f, heads);
    FlatStartsBlock(ys, f, heads);
    if xs != [] {
      FlatStartsBlock(xs[1..], f, heads);
      FlatStartsBlock(ys[1..], f, heads);
      SameBlock(heads, f(xs[0]), Flat(xs[1..], f), f(ys[0]), Flat(ys[1..], f));
      BlocksApart(xs[1..], ys[1..], f, heads);
      forall i | 0 <= i < |xs| ensures f(xs[i]) == f(ys[i]) {
        if i > 0 { assert xs[i] == xs[1..][i - 1] && ys[i] == ys[1..][i - 1]; }
      }
    }
  }

  /** A list of lines, one for each thing, can be read back if each line can. */
  lemma {:induction false} OneLineEach<T>(xs: seq<T>, ys: seq<T>, f: T -> seq<string>)
    requires forall i :: 0 <= i < |xs| ==> |f(xs[i])| == 1
    requires forall i :: 0 <= i < |ys| ==> |f(ys[i])| == 1
    requires Flat(xs, f) == Flat(ys, f)
    ensures |xs| == |ys| && forall i :: 0 <= i < |xs| ==> f(xs[i]) == f(ys[i])
    decreases |xs|
  {
    if xs != [] && ys != [] {
      var s := Flat(xs, f);
      assert s[..1] == f(xs[0]) && s[..1] == f(ys[0]);
      assert s[1..] == Flat(xs[1..], f) && s[1..] == Flat(ys[1..], f);
      OneLineEach(xs[1..], ys[1..], f);
      forall i | 0 <= i < |xs| ensures f(xs[i]) == f(ys[i]) {
        if i > 0 { assert xs[i] == xs[1..][i - 1] && ys[i] == ys[1..][i - 1]; }
      }
    }
  }

  lemma {:induction false} FlatTagged<T>(xs: seq<T>, f: T -> seq<string>, tag: string)
    requires forall i :: 0 <= i < |xs| ==> Tagged(f(xs[i]), tag)
    ensures Tagged(Flat(xs, f), tag)
    decreases |xs|
  {
    if xs != [] { FlatTagged(xs[1..], f, tag); }
  }

  // ----- maps

  /** The lines of a map, without their ends. */
  ghost function EntryLines(tag: string, m: map<string, string>): seq<string>
    decreases |m|
  {
    if m == map[] then []
    else
      var a := First(m);
      Smaller(m, a);
      [Entry(tag, a, m[a])] + EntryLines(tag, Without(m, a))
  }

  function Entry(tag: string, k: string, v: string): string { tag + ":" + (k + "=" + v) }

  lemma EntryIsLine(tag: string, k: string, v: string)
    ensures Line(tag, k, v) == Unlines([Entry(tag, k, v)])
  {
    OneLine(Entry(tag, k, v));
  }

  lemma EntryIsPlain(tag: string, k: string, v: string)
    requires '\n' !in tag && '\n' !in k && '\n' !in v
    ensures '\n' !in Entry(tag, k, v)
  {
  }

  /** Removing a key keeps the rest plain. */
  lemma WithoutIsPlain(m: map<string, string>, a: string)
    requires PlainKeys(m) && PlainValues(m)
    ensures PlainKeys(Without(m, a)) && PlainValues(Without(m, a))
  {
  }

  lemma {:induction false} MapIsLines(tag: string, m: map<string, string>)
    ensures MapLines(tag, m) == Unlines(EntryLines(tag, m))
    decreases |m|
  {
    if m == map[] {
      NoLines(tag);
    } else {
      var a := First(m);
      FirstLine(tag, m);
      Smaller(m, a);
      MapIsLines(tag, Without(m, a));
      EntryIsLine(tag, a, m[a]);
      UnlinesConcat([Entry(tag, a, m[a])], EntryLines(tag, Without(m, a)));
    }
  }

  lemma {:induction false} EntriesTagged(tag: string, m: map<string, string>)
    requires ':' !in tag
    ensures Tagged(EntryLines(tag, m), tag)
    decreases |m|
  {
    if m != map[] {
      var a := First(m);
      Smaller(m, a);
      TagOfTagged(tag, a + "=" + m[a]);
      EntriesTagged(tag, Without(m, a));
    }
  }

  lemma {:induction false} EntriesPlain(tag: string, m: map<string, string>)
    requires '\n' !in tag && PlainKeys(m) && PlainValues(m)
    ensures AllPlain(EntryLines(tag, m))
    decreases |m|
  {
    if m != map[] {
      var a := First(m);
      Smaller(m, a);
      EntryIsPlain(tag, a, m[a]);
      WithoutIsPlain(m, a);
      EntriesPlain(tag, Without(m, a));
    }
  }
}
