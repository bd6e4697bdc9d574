/** The Redis wire protocol (RESP2) as the preview provisioner speaks it. */
module Resp {
  import opened Text

  const MAX_BULK: nat := 16 * 1024 * 1024
  const MAX_ARRAY: nat := 100_000
  const MAX_DEPTH: nat := 8

  /** What a read yields: a null bulk string reads as "", a null array as the empty array. */
  datatype Value = Str(s: string) | Int(n: int) | Arr(items: seq<Value>)

  datatype Error =
    | Eof | EmptyLine | Refused(text: string) | BadNumber | BadLength(n: int)
    | BadTerminator | TooDeep | BadPrefix(c: char)

  datatype Result = Ok(value: Value) | Fail(error: Error)

  /** The outcome of one read, and the bytes left in the reader. */
  datatype Read = Read(result: Result, rest: string)

  // ----- reading

  function FindLF(b: string): (i: nat)
    ensures i <= |b| && (i < |b| ==> b[i] == '\n') && forall k :: 0 <= k < i ==> b[k] != '\n'
  {
    if b == [] || b[0] == '\n' then 0 else 1 + FindLF(b[1..])
  }

  function TrimCR(line: string): string {
    if line != [] && line[|line| - 1] == '\r' then line[..|line| - 1] else line
  }

  function Parse(b: string, depth: nat): Read
    decreases if depth > MAX_DEPTH then 0 else MAX_DEPTH + 1 - depth, 0
  {
    if depth > MAX_DEPTH then Read(Fail(TooDeep), b)
    else
      var i := FindLF(b);
      if i == |b| then Read(Fail(Eof), [])
      else
        var line, rest := TrimCR(b[..i]), b[i + 1..];
        if line == [] then Read(Fail(EmptyLine), rest)
        else match line[0]
          case '+' => Read(Ok(Str(line[1..])), rest)
          case '-' => Read(Fail(Refused(line[1..])), rest)
          case ':' => Read(NumberResult(ParseInt64(line[1..])), rest)
          case '$' => ParseBulk(ParseInt64(line[1..]), rest)
          case '*' => ParseArray(ParseInt64(line[1..]), rest, depth)
          case _ => Read(Fail(BadPrefix(line[0])), rest)
  }

  function NumberResult(n: Option<int>): Result {
    if n.None? then Fail(BadNumber) else Ok(Int(n.value))
  }

  function ParseBulk(length: Option<int>, b: string): Read {
    if length.None? then Read(Fail(BadNumber), b)
    else
      var n := length.value;
      if n == -1 then Read(Ok(Str("")), b)
      else if n < -1 || n > MAX_BULK then Read(Fail(BadLength(n)), b)
      else if |b| < n + 2 then Read(Fail(Eof), [])
      else if b[n] != '\r' || b[n + 1] != '\n' then Read(Fail(BadTerminator), b[n + 2..])
      else Read(Ok(Str(b[..n])), b[n + 2..])
  }

  function ParseArray(count: Option<int>, b: string, depth: nat): Read
    requires depth <= MAX_DEPTH
    decreases MAX_DEPTH - depth, MAX_ARRAY + 2
  {
    if count.None? then Read(Fail(BadNumber), b)
    else
      var n := count.value;
      if n == -1 || n == 0 then Read(Ok(Arr([])), b)
      else if n < -1 || n > MAX_ARRAY then Read(Fail(BadLength(n)), b)
      else ParseItems(b, n, depth, [])
  }

  /** n more items after those already appended. */
  function ParseItems(b: string, n: nat, depth: nat, items: seq<Value>): Read
    requires depth <= MAX_DEPTH
    decreases MAX_DEPTH - depth, n + 1
  {
    if n == 0 then Read(Ok(Arr(items)), b)
    else
      var r := Parse(b, depth + 1);
      if r.result.Fail? then r
      else ParseItems(r.rest, n - 1, depth, items + [r.result.value])
  }

  class Reader {
    var data: string

    constructor (data: string)
      ensures this.data == data
    {
      this.data := data;
    }

    /** bufio's ReadString('\n'), without the newline; end of input consumes what was there. */
    method ReadLine() returns (line: Option<string>)
      modifies this
      ensures line == if FindLF(old(data)) == |old(data)| then None else Some(old(data)[..FindLF(old(data))])
      ensures data == if line.None? then [] else old(data)[FindLF(old(data)) + 1..]
    {
      var i := FindLF(data);
      if i == |data| {
        line, data := None, [];
      } else {
        line, data := Some(data[..i]), data[i + 1..];
      }
    }

    /** io.ReadFull of n bytes. */
    method ReadFull(n: nat) returns (buf: Option<string>)
      modifies this
      ensures if |old(data)| < n then buf == None && data == []
              else buf == Some(old(data)[..n]) && data == old(data)[n..]
    {
      if |data| < n {
        buf, data := None, [];
      } else {
        buf, data := Some(data[..n]), data[n..];
      }
    }

    method ReadValue(depth: nat) returns (r: Result)
      modifies this
      ensures Read(r, data) == Parse(old(data), depth)
      decreases if depth > MAX_DEPTH then 0 else MAX_DEPTH + 1 - depth, 0
    {
      if depth > MAX_DEPTH { return Fail(TooDeep); }
      var raw := ReadLine();
      if raw.None? { return Fail(Eof); }
      var line := TrimCR(raw.value);
      if |line| == 0 { return Fail(EmptyLine); }
      if line[0] == '+' {
        return Ok(Str(line[1..]));
      } else if line[0] == '-' {
        return Fail(Refused(line[1..]));
      } else if line[0] == ':' {
        return NumberResult(ParseInt64(line[1..]));
      } else if line[0] == '$' {
        r := ReadBulk(ParseInt64(line[1..]));
      } else if line[0] == '*' {
        r := ReadArray(ParseInt64(line[1..]), depth);
      } else {
        return Fail(BadPrefix(line[0]));
      }
    }

    method ReadBulk(parsed: Option<int>) returns (r: Result)
      modifies this
      ensures Read(r, data) == ParseBulk(parsed, old(data))
    {
      if parsed.None? { return Fail(BadNumber); }
      var length := parsed.value;
      if length == -1 { return Ok(Str("")); }
      if length < -1 || length > MAX_BULK { return Fail(BadLength(length)); }
      var buf := ReadFull(length + 2);
      if buf.None? { return Fail(Eof); }
      if buf.value[length] != '\r' || buf.value[length + 1] != '\n' { return Fail(BadTerminator); }
      assert buf.value[..length] == old(data)[..length];
      return Ok(Str(buf.value[..length]));
    }

    method ReadArray(parsed: Option<int>, depth: nat) returns (r: Result)
      requires depth <= MAX_DEPTH
      modifies this
      ensures Read(r, data) == ParseArray(parsed, old(data), depth)
      decreases MAX_DEPTH - depth, 2
    {
      if parsed.None? { return Fail(BadNumber); }
      var count := parsed.value;
      if count == -1 || count == 0 { return Ok(Arr([])); }
      if count < -1 || count > MAX_ARRAY { return Fail(BadLength(count)); }
      r := ReadItems(count, depth);
    }

    method ReadItems(count: nat, depth: nat) returns (r: Result)
      requires depth <= MAX_DEPTH
      modifies this
      ensures Read(r, data) == ParseItems(old(data), count, depth, [])
      decreases MAX_DEPTH - depth, 1
    {
      var items: seq<Value> := [];
      for i := 0 to count
        invariant ParseItems(old(data), count, depth, []) == ParseItems(data, count - i, depth, items)
      {
        var item := ReadValue(depth + 1);
        if item.Fail? { return item; }
        items := items + [item.value];
      }
      return Ok(Arr(items));
    }
  }

  // ----- printing

  /** A reply as a server sends it. */
  datatype Reply =
    | Simple(text: string) | Err(text: string) | Integer(n: int)
    | Bulk(s: string) | NullBulk | Array(items: seq<Reply>) | NullArray

  const CRLF := "\r\n"

  function Print(r: Reply): string
    decreases r, 1
  {
    match r
    case Simple(text) => "+" + text + CRLF
    case Err(text) => "-" + text + CRLF
    case Integer(n) => ":" + Dec(n) + CRLF
    case Bulk(s) => "$" + Dec(|s|) + CRLF + (s + CRLF)
    case NullBulk => "$" + Dec(-1) + CRLF
    case Array(items) => "*" + Dec(|items|) + CRLF + PrintAll(items)
    case NullArray => "*" + Dec(-1) + CRLF
  }

  function PrintAll(rs: seq<Reply>): string
    decreases rs, 0
  {
    if rs == [] then "" else Print(rs[0]) + PrintAll(rs[1..])
  }

  function Denote(r: Reply): Value
    decreases r, 1
  {
    match r
    case Simple(text) => Str(text)
    case Err(text) => Str(text)
    case Integer(n) => Int(n)
    case Bulk(s) => Str(s)
    case NullBulk => Str("")
    case Array(items) => Arr(DenoteAll(items))
    case NullArray => Arr([])
  }

  function DenoteAll(rs: seq<Reply>): seq<Value>
    decreases rs, 0
  {
    if rs == [] then [] else [Denote(rs[0])] + DenoteAll(rs[1..])
  }

  /** Within the protocol and the reader's count and bulk limits. */
  ghost predicate WellFormed(r: Reply)
    decreases r, 1
  {
    match r
    case Simple(text) => '\n' !in text
    case Err(text) => '\n' !in text
    case Integer(n) => MIN_INT64 <= n <= MAX_INT64
    case Bulk(s) => |s| <= MAX_BULK
    case Array(items) => |items| <= MAX_ARRAY && AllWellFormed(items)
    case _ => true
  }

  ghost predicate AllWellFormed(rs: seq<Reply>)
    decreases rs, 0
  {
    rs == [] || (WellFormed(rs[0]) && AllWellFormed(rs[1..]))
  }

  ghost predicate ErrorFree(r: Reply)
    decreases r, 1
  {
    match r
    case Err(_) => false
    case Array(items) => AllErrorFree(items)
    case _ => true
  }

  ghost predicate AllErrorFree(rs: seq<Reply>)
    decreases rs, 0
  {
    rs == [] || (ErrorFree(rs[0]) && AllErrorFree(rs[1..]))
  }

  /** Levels of nonempty arrays. */
  ghost function Height(r: Reply): nat
    decreases r, 1
  {
    if r.Array? && r.items != [] then 1 + MaxHeight(r.items) else 0
  }

  ghost function MaxHeight(rs: seq<Reply>): nat
    decreases rs, 0
  {
    if rs == [] then 0
    else
      var h, rest := Height(rs[0]), MaxHeight(rs[1..]);
      if h < rest then rest else h
  }

  // ----- reading what was printed

  lemma DecHasNoLF(n: int)
    ensures '\n' !in Dec(n)
  {
  }

  lemma {:induction false} FindLFAfter(x: string, rest: string)
    requires '\n' !in x
    ensures FindLF(x + "\n" + rest) == |x|
  {
    if x == [] {
      assert x + "\n" + rest == "\n" + rest;
    } else {
      assert (x + "\n" + rest)[1..] == x[1..] + "\n" + rest;
      FindLFAfter(x[1..], rest);
    }
  }

  /** A header line followed by CRLF is read back whole, whatever follows it. */
  lemma HeaderLine(x: string, rest: string)
    requires x != [] && '\n' !in x
    ensures var b := x + CRLF + rest;
            var i := FindLF(b);
            i < |b| && TrimCR(b[..i]) == x && b[i + 1..] == rest
  {
    var b := x + CRLF + rest;
    assert b == (x + "\r") + "\n" + rest;
    FindLFAfter(x + "\r", rest);
    assert b[..|x| + 1] == x + "\r";
  }

  /** The reader acts on a header line by its first byte, whatever follows the line. */
  lemma LineRead(head: string, rest: string, depth: nat)
    requires head != [] && '\n' !in head && depth <= MAX_DEPTH
    ensures Parse(head + CRLF + rest, depth)
         == match head[0]
            case '+' => Read(Ok(Str(head[1..])), rest)
            case '-' => Read(Fail(Refused(head[1..])), rest)
            case ':' => Read(NumberResult(ParseInt64(head[1..])), rest)
            case '$' => ParseBulk(ParseInt64(head[1..]), rest)
            case '*' => ParseArray(ParseInt64(head[1..]), rest, depth)
            case _ => Read(Fail(BadPrefix(head[0])), rest)
  {
    HeaderLine(head, rest);
  }

  /** A header that carries a number. */
  lemma NumberLine(mark: char, n: int, rest: string, depth: nat)
    requires MIN_INT64 <= n <= MAX_INT64 && mark != '\n' && depth <= MAX_DEPTH
    ensures var p := Parse([mark] + Dec(n) + CRLF + rest, depth);
            && (mark == ':' ==> p == Read(Ok(Int(n)), rest))
            && (mark == '$' ==> p == ParseBulk(Some(n), rest))
            && (mark == '*' ==> p == ParseArray(Some(n), rest, depth))
  {
    var head := [mark] + Dec(n);
    ParseOfDec(n);
    DecHasNoLF(n);
    LineRead(head, rest, depth);
    assert head[1..] == Dec(n);
  }

  lemma ScalarRoundTrip(r: Reply, rest: string, depth: nat)
    requires WellFormed(r) && depth <= MAX_DEPTH && !r.Array? && !r.Bulk?
    ensures Parse(Print(r) + rest, depth)
         == Read(if r.Err? then Fail(Refused(r.text)) else Ok(Denote(r)), rest)
  {
    match r
    case Simple(text) => LineRead("+" + text, rest, depth);
    case Err(text) => LineRead("-" + text, rest, depth);
    case Integer(n) => NumberLine(':', n, rest, depth);
    case NullBulk => NumberLine('$', -1, rest, depth);
    case _ => NumberLine('*', -1, rest, depth);
  }

  lemma BulkRoundTrip(s: string, rest: string, depth: nat)
    requires |s| <= MAX_BULK && depth <= MAX_DEPTH
    ensures Parse(Print(Bulk(s)) + rest, depth) == Read(Ok(Str(s)), rest)
  {
    var head := "$" + Dec(|s|) + CRLF;
    var tail := s + CRLF + rest;
    assert Print(Bulk(s)) + rest == head + tail;
    NumberLine('$', |s|, tail, depth);
    BulkBody(s, rest);
  }

  lemma BulkBody(s: string, rest: string)
    requires |s| <= MAX_BULK
    ensures ParseBulk(Some(|s|), s + CRLF + rest) == Read(Ok(Str(s)), rest)
  {
    var tail := s + CRLF + rest;
    assert tail[..|s|] == s && tail[|s| + 2..] == rest;
    assert tail[|s|] == '\r' && tail[|s| + 1] == '\n';
  }

  lemma ArrayHeader(items: seq<Reply>, rest: string, depth: nat)
    requires depth <= MAX_DEPTH && |items| <= MAX_ARRAY
    ensures Parse(Print(Array(items)) + rest, depth) == ParseArray(Some(|items|), PrintAll(items) + rest, depth)
  {
    var head := "*" + Dec(|items|) + CRLF;
    Regroup(head, PrintAll(items), rest);
    NumberLine('*', |items|, PrintAll(items) + rest, depth);
  }

  ghost predicate Fits(r: Reply, depth: nat) {
    ErrorFree(r) && depth + Height(r) <= MAX_DEPTH
  }

  ghost predicate AllFit(rs: seq<Reply>, depth: nat) {
    AllErrorFree(rs) && (rs == [] || depth + 1 + MaxHeight(rs) <= MAX_DEPTH)
  }

  /** p is the value and leaves the rest exactly when the reply fits; otherwise it is an error,
      and the nesting error if the reply itself carries none. */
  ghost predicate ReadsBack(p: Read, fits: bool, clean: bool, v: Value, rest: string) {
    if fits then p == Read(Ok(v), rest) else p.result.Fail? && (clean ==> p.result.error == TooDeep)
  }

  /** The read succeeds, with exactly the value and exactly the rest, iff no error sits in the
      reply and its arrays fit the depth limit. */
  lemma {:induction false} RoundTrip(r: Reply, rest: string, depth: nat)
    requires WellFormed(r)
    ensures ReadsBack(Parse(Print(r) + rest, depth), Fits(r, depth), ErrorFree(r), Denote(r), rest)
    decreases r, 1
  {
    if depth > MAX_DEPTH {
    } else if r.Array? {
      ArrayHeader(r.items, rest, depth);
      ItemsRoundTrip(r.items, rest, depth, []);
      ArrayBody(r.items, rest, depth);
    } else if r.Bulk? {
      BulkRoundTrip(r.s, rest, depth);
    } else {
      ScalarRoundTrip(r, rest, depth);
    }
  }

  lemma ArrayBody(items: seq<Reply>, rest: string, depth: nat)
    requires depth <= MAX_DEPTH && |items| <= MAX_ARRAY
    requires ReadsBack(ParseItems(PrintAll(items) + rest, |items|, depth, []), AllFit(items, depth),
                       AllErrorFree(items), Arr([] + DenoteAll(items)), rest)
    ensures ReadsBack(ParseArray(Some(|items|), PrintAll(items) + rest, depth), Fits(Array(items), depth),
                      AllErrorFree(items), Denote(Array(items)), rest)
  {
    assert [] + DenoteAll(items) == DenoteAll(items);
    if items == [] { assert PrintAll(items) + rest == rest; }
  }

  lemma {:induction false} ItemsRoundTrip(rs: seq<Reply>, rest: string, depth: nat, items: seq<Value>)
    requires AllWellFormed(rs) && depth <= MAX_DEPTH
    ensures ReadsBack(ParseItems(PrintAll(rs) + rest, |rs|, depth, items), AllFit(rs, depth),
                      AllErrorFree(rs), Arr(items + DenoteAll(rs)), rest)
    decreases rs, 0
  {
    if rs == [] {
      assert PrintAll(rs) + rest == rest && items + DenoteAll(rs) == items;
    } else {
      var tail := PrintAll(rs[1..]) + rest;
      assert PrintAll(rs) + rest == Print(rs[0]) + tail;
      RoundTrip(rs[0], tail, depth + 1);
      var one := Denote(rs[0]);
      ItemsRoundTrip(rs[1..], rest, depth, items + [one]);
      assert items + [one] + DenoteAll(rs[1..]) == items + DenoteAll(rs);
    }
  }

  /** A refusal is consumed whole, so the next reply is read from its own first byte. */
  lemma RefusalKeepsSync(text: string, rest: string)
    requires '\n' !in text
    ensures Parse(Print(Err(text)) + rest, 0) == Read(Fail(Refused(text)), rest)
  {
    ScalarRoundTrip(Err(text), rest, 0);
  }

  // ----- commands

  function Bulks(args: seq<string>): (rs: seq<Reply>)
    ensures |rs| == |args|
  {
    if args == [] then [] else [Bulk(args[0])] + Bulks(args[1..])
  }

  function Strs(args: seq<string>): seq<Value> {
    if args == [] then [] else [Str(args[0])] + Strs(args[1..])
  }

  /** The bytes a command puts on the connection. */
  method PrintCommand(args: seq<string>) returns (w: string)
    ensures w == Print(Array(Bulks(args)))
  {
    w := "*" + Dec(|args|) + "\r\n";
    assert w + PrintAll(Bulks(args[0..])) == Print(Array(Bulks(args))) by { assert args[0..] == args; }
    for i := 0 to |args|
      invariant w + PrintAll(Bulks(args[i..])) == Print(Array(Bulks(args)))
    {
      var arg := args[i];
      assert args[i..][1..] == args[i + 1..];
      assert Bulks(args[i..])[1..] == Bulks(args[i + 1..]);
      assert PrintAll(Bulks(args[i..])) == Print(Bulk(arg)) + PrintAll(Bulks(args[i + 1..]));
      Regroup(w, Print(Bulk(arg)), PrintAll(Bulks(args[i + 1..])));
      w := w + ("$" + Dec(|arg|) + "\r\n" + (arg + "\r\n"));
    }
  }

  lemma {:induction false} BulksClean(args: seq<string>)
    requires forall k :: 0 <= k < |args| ==> |args[k]| <= MAX_BULK
    ensures AllWellFormed(Bulks(args)) && AllErrorFree(Bulks(args)) && MaxHeight(Bulks(args)) == 0
    ensures DenoteAll(Bulks(args)) == Strs(args)
  {
    if args != [] {
      assert Bulks(args)[1..] == Bulks(args[1..]);
      BulksClean(args[1..]);
    }
  }

  /** A server reading a command sees exactly its arguments, and nothing of what follows. */
  lemma CommandRoundTrip(args: seq<string>, rest: string)
    requires |args| <= MAX_ARRAY && forall k :: 0 <= k < |args| ==> |args[k]| <= MAX_BULK
    ensures Parse(Print(Array(Bulks(args))) + rest, 0) == Read(Ok(Arr(Strs(args))), rest)
  {
    BulksClean(args);
    RoundTrip(Array(Bulks(args)), rest, 0);
  }
}
