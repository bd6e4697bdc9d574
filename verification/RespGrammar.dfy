/** Exactly which bytes the RESP reader accepts, and what it makes of them. */
module RespGrammar {
  import opened Text
  import opened Resp

  /** A reply as it may be spelled: a line, with what follows it. The number in a line may have a sign or leading zeros,
      and the carriage return before the newline may be missing. */
  datatype Spelling =
    | OneLine(raw: string)
    | Payload(raw: string, content: string)
    | Listed(raw: string, items: seq<Spelling>)

  function Show(t: Spelling): string
    decreases t, 1
  {
    match t
    case OneLine(raw) => raw + "\n"
    case Payload(raw, content) => raw + "\n" + (content + CRLF)
    case Listed(raw, items) => raw + "\n" + ShowAll(items)
  }

  function ShowAll(ts: seq<Spelling>): string
    decreases ts, 0
  {
    if ts == [] then "" else Show(ts[0]) + ShowAll(ts[1..])
  }

  /** The number after the mark of a line. */
  function Count(raw: string): Option<int> {
    var line := TrimCR(raw);
    if line == [] then None else ParseInt64(line[1..])
  }

  predicate Marked(raw: string, mark: char) { TrimCR(raw) != [] && TrimCR(raw)[0] == mark }

  predicate IsNull(raw: string) { Count(raw) == Some(-1) }

  /** A line that is a whole value: a simple string, a number, a null, or an array of nothing. */
  predicate WholeLine(raw: string) {
    || Marked(raw, '+') || (Marked(raw, ':') && Count(raw).Some?) || (Marked(raw, '$') && IsNull(raw))
    || (Marked(raw, '*') && (IsNull(raw) || Count(raw) == Some(0)))
  }

  /** Correctly spelled, within the limits on sizes and, from this depth on, on nesting. */
  predicate Correct(t: Spelling, depth: nat)
    decreases t, 1
  {
    && depth <= MAX_DEPTH && '\n' !in t.raw
    && match t
       case OneLine(raw) => WholeLine(raw)
       case Payload(raw, content) => Marked(raw, '$') && Count(raw) == Some(|content|) && |content| <= MAX_BULK
       case Listed(raw, items) =>
         && Marked(raw, '*') && Count(raw) == Some(|items|) && 0 < |items| <= MAX_ARRAY
         && AllCorrect(items, depth + 1)
  }

  predicate AllCorrect(ts: seq<Spelling>, depth: nat)
    decreases ts, 0
  {
    ts == [] || (Correct(ts[0], depth) && AllCorrect(ts[1..], depth))
  }

  function Meaning(t: Spelling): Value
    decreases t, 1
  {
    match t
    case OneLine(raw) =>
      if Marked(raw, '+') then Str(TrimCR(raw)[1..])
      else if Marked(raw, ':') && Count(raw).Some? then Int(Count(raw).value)
      else if Marked(raw, '$') then Str("") else Arr([])
    case Payload(_, content) => Str(content)
    case Listed(_, items) => Arr(Meanings(items))
  }

  function Meanings(ts: seq<Spelling>): seq<Value>
    decreases ts, 0
  {
    if ts == [] then [] else [Meaning(ts[0])] + Meanings(ts[1..])
  }

  // ----- the first line

  /** What the reader does with a line, whatever comes after it. */
  function AfterLine(raw: string, rest: string, depth: nat): Read
    requires depth <= MAX_DEPTH
  {
    var line := TrimCR(raw);
    if line == [] then Read(Fail(EmptyLine), rest)
    else match line[0]
      case '+' => Read(Ok(Str(line[1..])), rest)
      case '-' => Read(Fail(Refused(line[1..])), rest)
      case ':' => Read(NumberResult(ParseInt64(line[1..])), rest)
      case '$' => ParseBulk(ParseInt64(line[1..]), rest)
      case '*' => ParseArray(ParseInt64(line[1..]), rest, depth)
      case _ => Read(Fail(BadPrefix(line[0])), rest)
  }

  lemma LineFirst(raw: string, rest: string, depth: nat)
    requires '\n' !in raw && depth <= MAX_DEPTH
    ensures Parse(raw + "\n" + rest, depth) == AfterLine(raw, rest, depth)
  {
    var b := raw + "\n" + rest;
    FindLFAfter(raw, rest);
    assert b[..|raw|] == raw && b[|raw| + 1..] == rest;
  }

  lemma SplitLine(b: string) returns (raw: string, rest: string)
    requires FindLF(b) < |b|
    ensures b == raw + "\n" + rest && '\n' !in raw
  {
    var i := FindLF(b);
    raw, rest := b[..i], b[i + 1..];
    assert b == b[..i] + [b[i]] + b[i + 1..];
  }

  // ----- everything spelled correctly is read

  lemma LineIsRead(raw: string, rest: string, depth: nat)
    requires Correct(OneLine(raw), depth)
    ensures AfterLine(raw, rest, depth) == Read(Ok(Meaning(OneLine(raw))), rest)
  {
  }

  lemma PayloadIsRead(raw: string, content: string, rest: string, depth: nat)
    requires Correct(Payload(raw, content), depth)
    ensures AfterLine(raw, content + CRLF + rest, depth) == Read(Ok(Str(content)), rest)
  {
    BulkBody(content, rest);
  }

  lemma ListIsOpened(raw: string, items: seq<Spelling>, b: string, depth: nat)
    requires Correct(Listed(raw, items), depth)
    ensures AfterLine(raw, b, depth) == ParseItems(b, |items|, depth, [])
  {
  }

  lemma {:induction false} CorrectIsRead(t: Spelling, rest: string, depth: nat)
    requires Correct(t, depth)
    ensures Parse(Show(t) + rest, depth) == Read(Ok(Meaning(t)), rest)
    decreases t, 1
  {
    match t {
      case OneLine(raw) =>
        LineFirst(raw, rest, depth);
        LineIsRead(raw, rest, depth);
      case Payload(raw, content) =>
        Regroup(raw + "\n", content + CRLF, rest);
        LineFirst(raw, content + CRLF + rest, depth);
        PayloadIsRead(raw, content, rest, depth);
      case Listed(raw, items) =>
        Regroup(raw + "\n", ShowAll(items), rest);
        LineFirst(raw, ShowAll(items) + rest, depth);
        ListIsOpened(raw, items, ShowAll(items) + rest, depth);
        AllAreRead(items, rest, depth, []);
        assert [] + Meanings(items) == Meanings(items);
    }
  }

  lemma {:induction false} AllAreRead(ts: seq<Spelling>, rest: string, depth: nat, before: seq<Value>)
    requires AllCorrect(ts, depth + 1) && depth <= MAX_DEPTH
    ensures ParseItems(ShowAll(ts) + rest, |ts|, depth, before) == Read(Ok(Arr(before + Meanings(ts))), rest)
    decreases ts, 0
  {
    if ts == [] {
      assert ShowAll(ts) + rest == rest && before + Meanings(ts) == before;
    } else {
      var tail := ShowAll(ts[1..]) + rest;
      Regroup(Show(ts[0]), ShowAll(ts[1..]), rest);
      CorrectIsRead(ts[0], tail, depth + 1);
      AllAreRead(ts[1..], rest, depth, before + [Meaning(ts[0])]);
      Regroup(before, [Meaning(ts[0])], Meanings(ts[1..]));
    }
  }

  // ----- and nothing else is

  lemma ReadBulkIsSpelled(raw: string, b: string, r: Read, depth: nat) returns (t: Spelling)
    requires '\n' !in raw && depth <= MAX_DEPTH && Marked(raw, '$') && r == ParseBulk(Count(raw), b) && r.result.Ok?
    ensures ReadAs(raw + "\n" + b, r, t, depth)
  {
    var n := Count(raw).value;
    if n == -1 {
      t := OneLine(raw);
    } else {
      t := Payload(raw, b[..n]);
      assert b == b[..n] + CRLF + b[n + 2..];
      Regroup(raw + "\n", b[..n] + CRLF, b[n + 2..]);
    }
  }

  ghost predicate ReadAs(b: string, r: Read, t: Spelling, depth: nat) {
    Correct(t, depth) && b == Show(t) + r.rest && r.result == Ok(Meaning(t))
  }

  /** What is read was spelled correctly. */
  lemma {:induction false} ReadIsCorrect(b: string, depth: nat) returns (t: Spelling)
    requires Parse(b, depth).result.Ok?
    ensures ReadAs(b, Parse(b, depth), t, depth)
    decreases if depth > MAX_DEPTH then 0 else MAX_DEPTH + 1 - depth, 0, 0
  {
    var raw, rest := SplitLine(b);
    LineFirst(raw, rest, depth);
    t := LineIsCorrect(raw, rest, depth, Parse(b, depth));
  }

  lemma {:induction false} LineIsCorrect(raw: string, rest: string, depth: nat, r: Read) returns (t: Spelling)
    requires depth <= MAX_DEPTH && '\n' !in raw && r == AfterLine(raw, rest, depth) && r.result.Ok?
    ensures ReadAs(raw + "\n" + rest, r, t, depth)
    decreases MAX_DEPTH - depth, MAX_ARRAY + 2, 0
  {
    if Marked(raw, '$') {
      t := ReadBulkIsSpelled(raw, rest, r, depth);
    } else if Marked(raw, '*') && Count(raw) != Some(-1) && Count(raw) != Some(0) {
      var n := Count(raw).value;
      var ts := ItemsAreCorrect(rest, n, depth, [], r);
      t := ListIsSpelled(raw, rest, r, ts, depth);
    } else {
      t := OneLine(raw);
    }
  }

  lemma ListIsSpelled(raw: string, rest: string, r: Read, ts: seq<Spelling>, depth: nat) returns (t: Spelling)
    requires depth <= MAX_DEPTH && '\n' !in raw && Marked(raw, '*') && Count(raw) == Some(|ts|)
    requires 0 < |ts| <= MAX_ARRAY && SpelledAs(rest, r, [], ts, depth + 1)
    ensures ReadAs(raw + "\n" + rest, r, t, depth)
  {
    t := Listed(raw, ts);
    SpelledInAll(rest, r, [], ts, depth + 1);
    assert [] + Meanings(ts) == Meanings(ts);
    Regroup(raw + "\n", ShowAll(ts), r.rest);
  }

  /** The items of a read, one after another, as they were spelled. */
  ghost predicate SpelledAs(b: string, r: Read, before: seq<Value>, ts: seq<Spelling>, depth: nat)
    decreases |ts|
  {
    if ts == [] then r == Read(Ok(Arr(before)), b)
    else exists b' :: Correct(ts[0], depth) && b == Show(ts[0]) + b'
                      && SpelledAs(b', r, before + [Meaning(ts[0])], ts[1..], depth)
  }

  lemma {:induction false} SpelledInAll(b: string, r: Read, before: seq<Value>, ts: seq<Spelling>, depth: nat)
    requires SpelledAs(b, r, before, ts, depth)
    ensures AllCorrect(ts, depth) && b == ShowAll(ts) + r.rest && r.result == Ok(Arr(before + Meanings(ts)))
    decreases |ts|
  {
    if ts == [] {
      assert "" + b == b && before + Meanings([]) == before;
    } else {
      var b' :| Correct(ts[0], depth) && b == Show(ts[0]) + b'
                && SpelledAs(b', r, before + [Meaning(ts[0])], ts[1..], depth);
      SpelledInAll(b', r, before + [Meaning(ts[0])], ts[1..], depth);
      Regroup(Show(ts[0]), ShowAll(ts[1..]), r.rest);
      Regroup(before, [Meaning(ts[0])], Meanings(ts[1..]));
    }
  }

  lemma {:induction false} ItemsAreCorrect(b: string, n: nat, depth: nat, before: seq<Value>, r: Read)
    returns (ts: seq<Spelling>)
    requires depth <= MAX_DEPTH && r == ParseItems(b, n, depth, before) && r.result.Ok?
    ensures |ts| == n && SpelledAs(b, r, before, ts, depth + 1)
    decreases MAX_DEPTH - depth, n + 1, 3
  {
    if n == 0 { ts := []; } else { ts := MoreItems(b, n, depth, before, r); }
  }

  lemma {:induction false} MoreItems(b: string, n: nat, depth: nat, before: seq<Value>, r: Read)
    returns (ts: seq<Spelling>)
    requires depth <= MAX_DEPTH && n > 0 && r == ParseItems(b, n, depth, before) && r.result.Ok?
    ensures |ts| == n && SpelledAs(b, r, before, ts, depth + 1)
    decreases MAX_DEPTH - depth, n + 1, 2
  {
    var t, b', more := FirstAndRest(b, n, depth, before, r);
    ts := [t] + more;
    OneMoreItem(b, b', t, r, before, more, depth + 1);
  }

  lemma {:induction false} FirstAndRest(b: string, n: nat, depth: nat, before: seq<Value>, r: Read)
    returns (t: Spelling, b': string, more: seq<Spelling>)
    requires depth <= MAX_DEPTH && n > 0 && r == ParseItems(b, n, depth, before) && r.result.Ok?
    ensures Correct(t, depth + 1) && b == Show(t) + b' && |more| == n - 1
    ensures SpelledAs(b', r, before + [Meaning(t)], more, depth + 1)
    decreases MAX_DEPTH - depth, n + 1, 1
  {
    t, b' := FirstItem(b, n, depth, before, r);
    more := ItemsAreCorrect(b', n - 1, depth, before + [Meaning(t)], r);
  }

  lemma OneMoreItem(b: string, b': string, t: Spelling, r: Read, before: seq<Value>, more: seq<Spelling>, depth: nat)
    requires Correct(t, depth) && b == Show(t) + b' && SpelledAs(b', r, before + [Meaning(t)], more, depth)
    ensures SpelledAs(b, r, before, [t] + more, depth)
  {
    var ts := [t] + more;
    assert ts[0] == t && ts[1..] == more;
    assert SpelledAs(b', r, before + [Meaning(ts[0])], ts[1..], depth);
  }

  lemma {:induction false} FirstItem(b: string, n: nat, depth: nat, before: seq<Value>, r: Read)
    returns (t: Spelling, b': string)
    requires depth <= MAX_DEPTH && n > 0 && r == ParseItems(b, n, depth, before) && r.result.Ok?
    ensures Correct(t, depth + 1) && b == Show(t) + b' && r == ParseItems(b', n - 1, depth, before + [Meaning(t)])
    decreases MAX_DEPTH - depth, n + 1, 0
  {
    OneItem(b, n, depth, before);
    t := ReadIsCorrect(b, depth + 1);
    b' := Parse(b, depth + 1).rest;
  }

  lemma OneItem(b: string, n: nat, depth: nat, before: seq<Value>)
    requires depth <= MAX_DEPTH && n > 0 && ParseItems(b, n, depth, before).result.Ok?
    ensures var first := Parse(b, depth + 1);
            && first.result.Ok?
            && ParseItems(b, n, depth, before) == ParseItems(first.rest, n - 1, depth, before + [first.result.value])
  {
  }

  /** The reader takes exactly the correctly spelled replies, for what they mean, and leaves what follows them. */
  lemma AcceptsExactly(b: string, depth: nat, v: Value, rest: string)
    ensures Parse(b, depth) == Read(Ok(v), rest)
       <==> exists t :: Correct(t, depth) && b == Show(t) + rest && Meaning(t) == v
  {
    if Parse(b, depth) == Read(Ok(v), rest) {
      var t := ReadIsCorrect(b, depth);
    }
    if t :| Correct(t, depth) && b == Show(t) + rest && Meaning(t) == v { CorrectIsRead(t, rest, depth); }
  }
}
