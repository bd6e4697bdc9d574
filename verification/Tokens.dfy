/** Cutting a text at separators, dropping what is not kept, and joining the pieces again. */
module Tokens {
  import opened Text

  /** The kept characters of each stretch between separators. */
  function Pieces(s: string, keep: char -> bool, sep: char -> bool): (r: seq<string>)
    ensures r != []
  {
    if s == [] then [""]
    else
      var f, c := Pieces(s[..|s| - 1], keep, sep), s[|s| - 1];
      var n := |f| - 1;
      if keep(c) then f[..n] + [f[n] + [c]] else if sep(c) then f + [""] else f
  }

  function NonEmpty(xs: seq<string>): seq<string> {
    if xs == [] then []
    else NonEmpty(xs[..|xs| - 1]) + if xs[|xs| - 1] != "" then [xs[|xs| - 1]] else []
  }

  /** The words of a text: its pieces, but for the empty ones. */
  function Words(s: string, keep: char -> bool, sep: char -> bool): seq<string> { NonEmpty(Pieces(s, keep, sep)) }

  function Glue(xs: seq<string>, mark: char): string {
    if xs == [] then "" else if |xs| == 1 then xs[0] else Glue(xs[..|xs| - 1], mark) + [mark] + xs[|xs| - 1]
  }

  /** The text stands right after a separator, or at its beginning. */
  predicate AtBreak(s: string, keep: char -> bool, sep: char -> bool) {
    var f := Pieces(s, keep, sep);
    f[|f| - 1] == ""
  }

  lemma NonEmptySnoc(xs: seq<string>, x: string)
    ensures NonEmpty(xs + [x]) == NonEmpty(xs) + if x != "" then [x] else []
  {
    assert (xs + [x])[..|xs|] == xs;
  }

  lemma GlueSnoc(xs: seq<string>, x: string, mark: char)
    ensures Glue(xs + [x], mark) == if xs == [] then x else Glue(xs, mark) + [mark] + x
  {
    assert (xs + [x])[..|xs|] == xs;
  }

  lemma PiecesEnd(s: string, keep: char -> bool, sep: char -> bool)
    ensures var f := Pieces(s, keep, sep); f == f[..|f| - 1] + [f[|f| - 1]]
  {
  }

  lemma PiecesSnoc(s: string, c: char, keep: char -> bool, sep: char -> bool)
    ensures var f := Pieces(s, keep, sep);
            Pieces(s + [c], keep, sep)
            == if keep(c) then f[..|f| - 1] + [f[|f| - 1] + [c]] else if sep(c) then f + [""] else f
  {
    assert (s + [c])[..|s|] == s;
  }

  /** A character that begins a word. */
  lemma BeginsWord(front: seq<string>, c: char, mark: char)
    ensures var ws := NonEmpty(front + [""]);
            Glue(NonEmpty(front + [[c]]), mark) == if ws == [] then [c] else Glue(ws, mark) + [mark] + [c]
  {
    NonEmptySnoc(front, "");
    NonEmptySnoc(front, [c]);
    GlueSnoc(NonEmpty(front), [c], mark);
    assert NonEmpty(front) + [] == NonEmpty(front);
  }

  /** A character that goes on with a word. */
  lemma ExtendsWord(front: seq<string>, last: string, c: char, mark: char)
    requires last != ""
    ensures Glue(NonEmpty(front + [last + [c]]), mark) == Glue(NonEmpty(front + [last]), mark) + [c]
    ensures NonEmpty(front + [last]) != []
  {
    NonEmptySnoc(front, last);
    NonEmptySnoc(front, last + [c]);
    GlueSnoc(NonEmpty(front), last, mark);
    GlueSnoc(NonEmpty(front), last + [c], mark);
    Regroup(Glue(NonEmpty(front), mark) + [mark], last, [c]);
  }

  lemma NotKept(s: string, c: char, keep: char -> bool, sep: char -> bool)
    requires !keep(c)
    ensures Words(s + [c], keep, sep) == Words(s, keep, sep)
    ensures AtBreak(s + [c], keep, sep) <==> AtBreak(s, keep, sep) || sep(c)
  {
    PiecesSnoc(s, c, keep, sep);
    NonEmptySnoc(Pieces(s, keep, sep), "");
  }

  /** What one more kept character does to the joined words. */
  lemma IsKept(s: string, c: char, keep: char -> bool, sep: char -> bool, mark: char)
    requires keep(c)
    ensures var ws := Words(s, keep, sep);
            Glue(Words(s + [c], keep, sep), mark)
            == if !AtBreak(s, keep, sep) then Glue(ws, mark) + [c]
               else if ws == [] then [c] else Glue(ws, mark) + [mark] + [c]
    ensures !AtBreak(s + [c], keep, sep) && Words(s + [c], keep, sep) != []
    ensures !AtBreak(s, keep, sep) ==> Words(s, keep, sep) != []
  {
    var f := Pieces(s, keep, sep);
    var front, last := f[..|f| - 1], f[|f| - 1];
    PiecesSnoc(s, c, keep, sep);
    PiecesEnd(s, keep, sep);
    NonEmptySnoc(front, last + [c]);
    if last == "" {
      assert "" + [c] == [c];
      BeginsWord(front, c, mark);
    } else {
      ExtendsWord(front, last, c, mark);
    }
  }

  lemma NoWords(keep: char -> bool, sep: char -> bool)
    ensures Words("", keep, sep) == [] && AtBreak("", keep, sep)
  {
    NonEmptySnoc([], "");
    assert [] + [""] == [""];
  }

  /** Joined words begin and end with a kept character. */
  lemma {:induction false} GlueEnds(s: string, keep: char -> bool, sep: char -> bool, mark: char)
    ensures var g := Glue(Words(s, keep, sep), mark);
            && (g == "" <==> Words(s, keep, sep) == [])
            && (g != "" ==> keep(g[0]) && keep(g[|g| - 1]))
  {
    if s == [] {
      NoWords(keep, sep);
    } else {
      var front, c := s[..|s| - 1], s[|s| - 1];
      assert s == front + [c];
      GlueEnds(front, keep, sep, mark);
      if keep(c) { IsKept(front, c, keep, sep, mark); } else { NotKept(front, c, keep, sep); }
    }
  }
}
