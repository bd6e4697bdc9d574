/** Replay: picking the one preview service URL a request is meant for, or reporting ambiguity. */
module ServiceSelection {
  import opened Text
  import opened PreviewRouting

  datatype Service = Service(name: string, environmentName: string, url: string)

  /** What the choice depends on besides the services; hostOf is URL parsing (None when it fails). */
  datatype Request = Request(explicitBase: string, external: string, firstEntry: Option<string>,
                             hostOf: string -> Option<string>, digest: string -> string)

  function ReplaceAll(s: string, find: string, with: string): string
    requires find != ""
  {
    if |s| < |find| then s
    else if s[..|find|] == find then with + ReplaceAll(s[|find|..], find, with)
    else [s[0]] + ReplaceAll(s[1..], find, with)
  }

  predicate IsAbsoluteHTTP(s: string) { "http://" <= s || "https://" <= s }

  function RefURL(q: Request): string {
    var base := TrimSpace(q.explicitBase);
    var entry := if base == "" && q.firstEntry.Some? && IsAbsoluteHTTP(q.firstEntry.value)
                 then TrimSpace(q.firstEntry.value) else base;
    if entry == "" && !Contains(q.external, "{") then TrimSpace(q.external) else entry
  }

  function FirstLabel(host: string): string {
    if host == [] || host[0] == '.' then "" else [host[0]] + FirstLabel(host[1..])
  }

  // ----- the three tests, tried in this order

  predicate SameHost(q: Request, url: string, host: string) {
    var h := q.hostOf(url);
    h.Some? && EqualFold(h.value, host)
  }

  predicate ExpandsTo(q: Request, token: string, host: string) {
    token != "" && SameHost(q, ReplaceAll(q.external, "{env}", token), host)
  }

  predicate MatchesTemplate(q: Request, host: string, s: Service) {
    || SameHost(q, TrimSpace(s.url), host)
    || (Contains(q.external, "{env}")
        && (ExpandsTo(q, TrimSpace(s.environmentName), host) || ExpandsTo(q, TrimSpace(s.name), host)))
  }

  ghost predicate IsGenerated(q: Request, lbl: string, name: string) {
    Sanitize(name) != "" && Generated(lbl, name, q.digest)
  }

  predicate NamesHost(host: string, token: string) {
    token != "" && (host == token || MatchesToken(FirstLabel(host), token))
  }

  ghost predicate MatchesChildEnv(q: Request, host: string, s: Service) {
    || NamesHost(host, Sanitize(s.environmentName))
    || (var h := q.hostOf(TrimSpace(s.url));
        h.Some? && var own := FirstLabel(ToLower(h.value));
        IsGenerated(q, own, s.name) && (host == own || MatchesToken(FirstLabel(host), own)))
    || IsGenerated(q, FirstLabel(host), s.name)
  }

  predicate MatchesName(host: string, s: Service) { NamesHost(host, Sanitize(s.name)) }

  // ----- the choice

  ghost function Filter(xs: seq<Service>, p: Service -> bool): seq<Service> {
    if xs == [] then [] else Filter(xs[..|xs| - 1], p) + Kept(xs[|xs| - 1], p)
  }

  ghost function Kept(x: Service, p: Service -> bool): seq<Service> { if p(x) then [x] else [] }

  lemma FilterStep(xs: seq<Service>, i: nat, p: Service -> bool)
    requires i < |xs|
    ensures Filter(xs[..i + 1], p) == if p(xs[i]) then Filter(xs[..i], p) + [xs[i]] else Filter(xs[..i], p)
    ensures URLs(Filter(xs[..i + 1], p))
         == if p(xs[i]) then URLs(Filter(xs[..i], p)) + [TrimSpace(xs[i].url)] else URLs(Filter(xs[..i], p))
  {
    assert xs[..i + 1][..i] == xs[..i];
    assert Filter(xs[..i], p) + [] == Filter(xs[..i], p);
  }

  lemma {:induction false} FilterMembers(xs: seq<Service>, p: Service -> bool)
    ensures forall x :: x in Filter(xs, p) ==> x in xs && p(x)
  {
    if xs != [] { FilterMembers(xs[..|xs| - 1], p); }
  }

  predicate HasURL(s: Service) { TrimSpace(s.url) != "" }

  /** One match is the answer, several are ambiguous, none leaves the question open. */
  datatype Verdict = Chosen(url: string) | Ambiguous | Open

  function Judge(fs: seq<Service>): Verdict {
    if |fs| == 1 then Chosen(TrimSpace(fs[0].url)) else if |fs| > 1 then Ambiguous else Open
  }

  ghost function ByHost(q: Request, host: string, cands: seq<Service>): Verdict {
    var template := Judge(Filter(cands, s => MatchesTemplate(q, host, s)));
    if !template.Open? then template
    else
      var child := Judge(Filter(cands, s => MatchesChildEnv(q, host, s)));
      if !child.Open? then child
      else
        var named := Judge(Filter(cands, s => MatchesName(host, s)));
        if named.Chosen? then named else Ambiguous
  }

  /** Open here means that no service has a URL. */
  ghost function Select(q: Request, services: seq<Service>): Verdict {
    var cands := Filter(services, HasURL);
    if |cands| <= 1 then Judge(cands) else FromCandidates(q, cands)
  }

  function URLs(fs: seq<Service>): (r: seq<string>)
    ensures |r| == |fs| && forall i :: 0 <= i < |fs| ==> r[i] == TrimSpace(fs[i].url)
  {
    seq(|fs|, i requires 0 <= i < |fs| => TrimSpace(fs[i].url))
  }

  method TestChildEnv(q: Request, host: string, s: Service) returns (r: bool)
    ensures r == MatchesChildEnv(q, host, s)
  {
    var envName := SanitizeDNSLabel(s.environmentName);
    if envName != "" && (host == envName || MatchesToken(FirstLabel(host), envName)) { return true; }
    var parsed := q.hostOf(TrimSpace(s.url));
    if parsed.Some? {
      var own := FirstLabel(ToLower(parsed.value));
      var generated := IsGeneratedChildEnvLabel(own, s.name, q.digest);
      if generated && (host == own || MatchesToken(FirstLabel(host), own)) { return true; }
    }
    r := IsGeneratedChildEnvLabel(FirstLabel(host), s.name, q.digest);
  }

  method Candidates(services: seq<Service>) returns (cands: seq<Service>)
    ensures cands == Filter(services, HasURL)
  {
    cands := [];
    for i := 0 to |services|
      invariant cands == Filter(services[..i], HasURL)
    {
      FilterStep(services, i, HasURL);
      if HasURL(services[i]) { cands := cands + [services[i]]; }
    }
    assert services[..|services|] == services;
  }

  method TemplateMatches(q: Request, host: string, cands: seq<Service>) returns (matched: seq<string>)
    ensures matched == URLs(Filter(cands, s => MatchesTemplate(q, host, s)))
  {
    matched := [];
    ghost var p := s => MatchesTemplate(q, host, s);
    for i := 0 to |cands|
      invariant matched == URLs(Filter(cands[..i], p))
    {
      FilterStep(cands, i, p);
      var hit := MatchesTemplate(q, host, cands[i]);
      assert hit == p(cands[i]);
      if hit { matched := matched + [TrimSpace(cands[i].url)]; }
    }
    assert cands[..|cands|] == cands;
  }

  method ChildEnvMatches(q: Request, host: string, cands: seq<Service>) returns (matched: seq<string>)
    ensures matched == URLs(Filter(cands, s => MatchesChildEnv(q, host, s)))
  {
    matched := [];
    ghost var p := s => MatchesChildEnv(q, host, s);
    for i := 0 to |cands|
      invariant matched == URLs(Filter(cands[..i], p))
    {
      FilterStep(cands, i, p);
      var hit := TestChildEnv(q, host, cands[i]);
      assert hit == p(cands[i]);
      if hit { matched := matched + [TrimSpace(cands[i].url)]; }
    }
    assert cands[..|cands|] == cands;
  }

  method TestName(host: string, s: Service) returns (r: bool)
    ensures r == MatchesName(host, s)
  {
    var name := SanitizeDNSLabel(s.name);
    r := name != "" && (host == name || MatchesToken(FirstLabel(host), name));
  }

  method NameMatches(host: string, cands: seq<Service>) returns (matched: seq<string>)
    ensures matched == URLs(Filter(cands, s => MatchesName(host, s)))
  {
    matched := [];
    ghost var p := s => MatchesName(host, s);
    for i := 0 to |cands|
      invariant matched == URLs(Filter(cands[..i], p))
    {
      FilterStep(cands, i, p);
      var hit := TestName(host, cands[i]);
      assert hit == p(cands[i]);
      if hit { matched := matched + [TrimSpace(cands[i].url)]; }
    }
    assert cands[..|cands|] == cands;
  }

  /** The source's pair: the URL (empty if none was chosen) and whether the group is ambiguous. */
  method SelectServiceURL(q: Request, services: seq<Service>) returns (url: string, ambiguous: bool)
    ensures ambiguous == Select(q, services).Ambiguous?
    ensures url == if Select(q, services).Chosen? then Select(q, services).url else ""
  {
    var cands := Candidates(services);
    if |cands| == 0 { return "", false; }
    if |cands| == 1 { return TrimSpace(cands[0].url), false; }
    var ref := RefURL(q);
    if ref == "" { return "", true; }
    var parsed := q.hostOf(ref);
    if parsed.None? || parsed.value == "" { return "", true; }
    var host := ToLower(parsed.value);
    url, ambiguous := SelectByHost(q, host, cands);
  }

  lemma JudgedByURLs(fs: seq<Service>)
    ensures |URLs(fs)| == |fs| && Judge(fs).Open? == (|fs| == 0) && Judge(fs).Ambiguous? == (|fs| > 1)
    ensures |fs| == 1 ==> Judge(fs) == Chosen(URLs(fs)[0])
  {
  }

  method SelectByHost(q: Request, host: string, cands: seq<Service>) returns (url: string, ambiguous: bool)
    ensures ambiguous == ByHost(q, host, cands).Ambiguous?
    ensures url == if ByHost(q, host, cands).Chosen? then ByHost(q, host, cands).url else ""
  {
    JudgedByURLs(Filter(cands, s => MatchesTemplate(q, host, s)));
    JudgedByURLs(Filter(cands, s => MatchesChildEnv(q, host, s)));
    JudgedByURLs(Filter(cands, s => MatchesName(host, s)));
    var template := TemplateMatches(q, host, cands);
    if |template| == 1 { return template[0], false; }
    if |template| > 1 { return "", true; }
    var child := ChildEnvMatches(q, host, cands);
    if |child| == 1 { return child[0], false; }
    if |child| > 1 { return "", true; }
    var named := NameMatches(host, cands);
    if |named| == 1 { return named[0], false; }
    return "", true;
  }

  // ----- the order of the services does not matter

  lemma {:induction false} FilterCounts(xs: seq<Service>, p: Service -> bool, x: Service)
    ensures multiset(Filter(xs, p))[x] == if p(x) then multiset(xs)[x] else 0
  {
    if xs != [] {
      FilterCounts(xs[..|xs| - 1], p, x);
      assert xs == xs[..|xs| - 1] + [xs[|xs| - 1]];
    }
  }

  lemma FilterPermutes(xs: seq<Service>, ys: seq<Service>, p: Service -> bool)
    requires multiset(xs) == multiset(ys)
    ensures multiset(Filter(xs, p)) == multiset(Filter(ys, p))
  {
    forall x ensures multiset(Filter(xs, p))[x] == multiset(Filter(ys, p))[x] {
      FilterCounts(xs, p, x);
      FilterCounts(ys, p, x);
    }
  }

  lemma JudgePermutes(xs: seq<Service>, ys: seq<Service>)
    requires multiset(xs) == multiset(ys)
    ensures Judge(xs) == Judge(ys)
  {
    assert |xs| == |multiset(xs)| && |ys| == |multiset(ys)|;
    if |xs| == 1 {
      assert xs[0] in multiset(ys);
      assert ys[0] in multiset(ys);
    }
  }

  lemma FilteredJudgePermutes(xs: seq<Service>, ys: seq<Service>, p: Service -> bool)
    requires multiset(xs) == multiset(ys)
    ensures Judge(Filter(xs, p)) == Judge(Filter(ys, p))
  {
    FilterPermutes(xs, ys, p);
    JudgePermutes(Filter(xs, p), Filter(ys, p));
  }

  lemma ByHostPermutes(q: Request, host: string, xs: seq<Service>, ys: seq<Service>)
    requires multiset(xs) == multiset(ys)
    ensures ByHost(q, host, xs) == ByHost(q, host, ys)
  {
    FilteredJudgePermutes(xs, ys, s => MatchesTemplate(q, host, s));
    FilteredJudgePermutes(xs, ys, s => MatchesChildEnv(q, host, s));
    FilteredJudgePermutes(xs, ys, s => MatchesName(host, s));
  }

  lemma SameLength(xs: seq<Service>, ys: seq<Service>)
    requires multiset(xs) == multiset(ys)
    ensures |xs| == |ys|
  {
    assert |xs| == |multiset(xs)| && |ys| == |multiset(ys)|;
  }

  lemma FromCandidatesPermutes(q: Request, xs: seq<Service>, ys: seq<Service>)
    requires multiset(xs) == multiset(ys) && |xs| > 1 && |ys| > 1
    ensures FromCandidates(q, xs) == FromCandidates(q, ys)
  {
    var h := q.hostOf(RefURL(q));
    if h.Some? { ByHostPermutes(q, ToLower(h.value), xs, ys); }
  }

  /** Permuting the services changes neither the URL nor the ambiguity verdict. */
  lemma SelectionIgnoresOrder(q: Request, xs: seq<Service>, ys: seq<Service>)
    requires multiset(xs) == multiset(ys)
    ensures Select(q, xs) == Select(q, ys)
  {
    var cx, cy := Filter(xs, HasURL), Filter(ys, HasURL);
    FilterPermutes(xs, ys, HasURL);
    SameLength(cx, cy);
    if |cx| <= 1 { JudgePermutes(cx, cy); } else { FromCandidatesPermutes(q, cx, cy); }
  }

  ghost predicate IsMemberURL(services: seq<Service>, url: string) {
    exists s :: s in services && HasURL(s) && TrimSpace(s.url) == url
  }

  lemma FilteredChoice(services: seq<Service>, p: Service -> bool)
    requires forall s :: s in services ==> HasURL(s)
    ensures Judge(Filter(services, p)).Chosen? ==> IsMemberURL(services, Judge(Filter(services, p)).url)
  {
    var fs := Filter(services, p);
    FilterMembers(services, p);
    if |fs| == 1 { assert fs[0] in fs; }
  }

  lemma ByHostIsMember(q: Request, host: string, cands: seq<Service>)
    requires forall s :: s in cands ==> HasURL(s)
    ensures !ByHost(q, host, cands).Open?
    ensures ByHost(q, host, cands).Chosen? ==> IsMemberURL(cands, ByHost(q, host, cands).url)
  {
    FilteredChoice(cands, s => MatchesTemplate(q, host, s));
    FilteredChoice(cands, s => MatchesChildEnv(q, host, s));
    FilteredChoice(cands, s => MatchesName(host, s));
  }

  lemma MemberLifts(cands: seq<Service>, services: seq<Service>, url: string)
    requires IsMemberURL(cands, url) && forall s :: s in cands ==> s in services
    ensures IsMemberURL(services, url)
  {
    var s :| s in cands && HasURL(s) && TrimSpace(s.url) == url;
    assert s in services;
  }

  ghost function FromCandidates(q: Request, cands: seq<Service>): Verdict
    requires |cands| > 1
  {
    var h := q.hostOf(RefURL(q));
    if RefURL(q) == "" || h.None? || h.value == "" then Ambiguous else ByHost(q, ToLower(h.value), cands)
  }

  lemma FromCandidatesIsMember(q: Request, cands: seq<Service>)
    requires |cands| > 1 && forall s :: s in cands ==> HasURL(s)
    ensures !FromCandidates(q, cands).Open?
    ensures FromCandidates(q, cands).Chosen? ==> IsMemberURL(cands, FromCandidates(q, cands).url)
  {
    var h := q.hostOf(RefURL(q));
    if RefURL(q) != "" && h.Some? && h.value != "" { ByHostIsMember(q, ToLower(h.value), cands); }
  }

  lemma SingleIsMember(cands: seq<Service>)
    requires |cands| == 1 && HasURL(cands[0])
    ensures IsMemberURL(cands, Judge(cands).url)
  {
    assert cands[0] in cands;
  }

  /** A chosen URL is a nonempty URL of one of the services; the question stays open only when no service
      has one, so a group with several is chosen from or reported ambiguous, never silently dropped. */
  lemma SelectionIsMember(q: Request, services: seq<Service>)
    ensures Select(q, services).Chosen? ==> IsMemberURL(services, Select(q, services).url)
    ensures Select(q, services).Open? <==> forall s :: s in services ==> !HasURL(s)
  {
    var cands, v := Filter(services, HasURL), Select(q, services);
    FilterMembers(services, HasURL);
    CandidatesExist(services);
    if |cands| == 1 {
      assert cands[0] in cands;
      SingleIsMember(cands);
      MemberLifts(cands, services, v.url);
    } else if |cands| > 1 {
      FromCandidatesIsMember(q, cands);
      if v.Chosen? { MemberLifts(cands, services, v.url); }
    }
  }

  lemma CandidatesExist(services: seq<Service>)
    ensures Filter(services, HasURL) == [] <==> forall s :: s in services ==> !HasURL(s)
  {
    var cands := Filter(services, HasURL);
    FilterMembers(services, HasURL);
    forall s | s in services && HasURL(s) ensures cands != [] {
      FilterCounts(services, HasURL, s);
      assert s in multiset(cands);
    }
    if cands != [] { assert cands[0] in cands; }
  }

  // ----- what is chosen

  lemma {:induction false} FilterNone(xs: seq<Service>, p: Service -> bool)
    ensures Filter(xs, p) == [] <==> forall i :: 0 <= i < |xs| ==> !p(xs[i])
    decreases |xs|
  {
    if xs != [] {
      FilterNone(xs[..|xs| - 1], p);
      assert forall i :: 0 <= i < |xs| - 1 ==> xs[..|xs| - 1][i] == xs[i];
    }
  }

  /** The only one that passes. */
  ghost predicate Only(xs: seq<Service>, p: Service -> bool, i: int) {
    0 <= i < |xs| && p(xs[i]) && forall j :: 0 <= j < |xs| && j != i ==> !p(xs[j])
  }

  lemma {:induction false} FilterOne(xs: seq<Service>, p: Service -> bool, i: int)
    requires Only(xs, p, i)
    ensures Filter(xs, p) == [xs[i]]
    decreases |xs|
  {
    var front := xs[..|xs| - 1];
    assert forall j :: 0 <= j < |front| ==> front[j] == xs[j];
    if i < |front| { FilterOne(front, p, i); } else { FilterNone(front, p); }
  }

  lemma {:induction false} OneFiltered(xs: seq<Service>, p: Service -> bool) returns (i: int)
    requires |Filter(xs, p)| == 1
    ensures Only(xs, p, i)
    decreases |xs|
  {
    var front := xs[..|xs| - 1];
    assert forall j :: 0 <= j < |front| ==> front[j] == xs[j];
    if p(xs[|xs| - 1]) {
      i := |xs| - 1;
      FilterNone(front, p);
    } else {
      i := OneFiltered(front, p);
    }
  }

  /** The first of the three tests a service passes. */
  ghost function Rank(q: Request, host: string, s: Service): nat {
    if MatchesTemplate(q, host, s) then 0 else if MatchesChildEnv(q, host, s) then 1
    else if MatchesName(host, s) then 2 else 3
  }

  /** It passes a test that no other passes, nor an earlier one. */
  ghost predicate StandsOut(q: Request, host: string, cands: seq<Service>, i: int) {
    && 0 <= i < |cands| && Rank(q, host, cands[i]) < 3
    && forall j :: 0 <= j < |cands| && j != i ==> Rank(q, host, cands[j]) > Rank(q, host, cands[i])
  }

  /** What one round of matching leaves: no match, one, or several. */
  lemma JudgedOpen(xs: seq<Service>, p: Service -> bool)
    ensures Judge(Filter(xs, p)).Open? <==> forall i :: 0 <= i < |xs| ==> !p(xs[i])
  {
    FilterNone(xs, p);
  }

  lemma JudgedOne(xs: seq<Service>, p: Service -> bool, i: int)
    requires Only(xs, p, i)
    ensures Judge(Filter(xs, p)) == Chosen(TrimSpace(xs[i].url))
  {
    FilterOne(xs, p, i);
  }

  lemma JudgedChosen(xs: seq<Service>, p: Service -> bool) returns (i: int)
    requires Judge(Filter(xs, p)).Chosen?
    ensures Only(xs, p, i)
  {
    i := OneFiltered(xs, p);
  }

  lemma StandingOutIsChosen(q: Request, host: string, cands: seq<Service>, i: int)
    requires StandsOut(q, host, cands, i)
    ensures ByHost(q, host, cands) == Chosen(TrimSpace(cands[i].url))
  {
    var t, c, n := s => MatchesTemplate(q, host, s), s => MatchesChildEnv(q, host, s), s => MatchesName(host, s);
    JudgedOpen(cands, t);
    JudgedOpen(cands, c);
    match Rank(q, host, cands[i]) {
      case 0 => JudgedOne(cands, t, i);
      case 1 => JudgedOne(cands, c, i);
      case _ => JudgedOne(cands, n, i);
    }
  }

  lemma ChosenStandsOut(q: Request, host: string, cands: seq<Service>) returns (i: int)
    requires ByHost(q, host, cands).Chosen?
    ensures StandsOut(q, host, cands, i)
  {
    var t, c, n := s => MatchesTemplate(q, host, s), s => MatchesChildEnv(q, host, s), s => MatchesName(host, s);
    JudgedOpen(cands, t);
    JudgedOpen(cands, c);
    if !Judge(Filter(cands, t)).Open? {
      i := JudgedChosen(cands, t);
    } else if !Judge(Filter(cands, c)).Open? {
      i := JudgedChosen(cands, c);
    } else {
      i := JudgedChosen(cands, n);
    }
  }

  /** A URL is chosen exactly when its service stands out; otherwise the group is ambiguous. */
  lemma ChoiceExactly(q: Request, host: string, cands: seq<Service>, url: string)
    ensures ByHost(q, host, cands) == Chosen(url)
       <==> exists i :: StandsOut(q, host, cands, i) && TrimSpace(cands[i].url) == url
    ensures !ByHost(q, host, cands).Open?
  {
    if ByHost(q, host, cands).Chosen? {
      var i := ChosenStandsOut(q, host, cands);
      StandingOutIsChosen(q, host, cands, i);
    }
    forall i | StandsOut(q, host, cands, i) ensures ByHost(q, host, cands) == Chosen(TrimSpace(cands[i].url)) {
      StandingOutIsChosen(q, host, cands, i);
    }
  }

  ghost predicate HostKnown(q: Request) {
    RefURL(q) != "" && q.hostOf(RefURL(q)).Some? && q.hostOf(RefURL(q)).value != ""
  }

  /** A URL is chosen exactly when only one service has one, or the request names a host and a service stands out. */
  lemma SelectExactly(q: Request, services: seq<Service>, url: string)
    ensures var cands := Filter(services, HasURL);
            Select(q, services) == Chosen(url)
            <==> || (|cands| == 1 && TrimSpace(cands[0].url) == url)
                 || (|cands| > 1 && HostKnown(q)
                     && exists i :: StandsOut(q, ToLower(q.hostOf(RefURL(q)).value), cands, i)
                                    && TrimSpace(cands[i].url) == url)
  {
    var cands := Filter(services, HasURL);
    if |cands| > 1 && HostKnown(q) { ChoiceExactly(q, ToLower(q.hostOf(RefURL(q)).value), cands, url); }
  }

  lemma ContainsChar(s: string, c: char)
    ensures Contains(s, [c]) <==> c in s
  {
    if c in s {
      var i :| 0 <= i < |s| && s[i] == c;
      assert OccursAt(s, [c], i);
    }
    if Contains(s, [c]) {
      var i :| 0 <= i <= |s| && OccursAt(s, [c], i);
      assert s[i..i + 1][0] == s[i];
    }
  }

  /** What begins with a letter is not blank. */
  lemma NotBlank(s: string)
    requires s != "" && !IsSpace(s[0])
    ensures TrimSpace(s) != ""
  {
    assert TrimLeft(s, IsSpace) == s;
    var a, b := BlanksAround(s);
  }

  /** Which URL tells the host: the one given, else the first recorded request's if it is absolute, else the external
      one if it is no template. */
  lemma RefURLExactly(q: Request)
    ensures RefURL(q)
         == if TrimSpace(q.explicitBase) != "" then TrimSpace(q.explicitBase)
            else if q.firstEntry.Some? && IsAbsoluteHTTP(q.firstEntry.value) then TrimSpace(q.firstEntry.value)
            else if '{' in q.external then ""
            else TrimSpace(q.external)
  {
    ContainsChar(q.external, '{');
    if q.firstEntry.Some? && IsAbsoluteHTTP(q.firstEntry.value) {
      assert q.firstEntry.value[0] == 'h';
      NotBlank(q.firstEntry.value);
    }
  }

  // ----- what the tests look at

  /** The label before the first dot. */
  lemma {:induction false} FirstLabelExactly(host: string)
    ensures var l := FirstLabel(host); '.' !in l && (host == l || l + "." <= host)
  {
    if host != [] && host[0] != '.' {
      FirstLabelExactly(host[1..]);
      assert host == [host[0]] + host[1..];
    }
  }

  /** A host names a token when it is the token, or its first label holds it between hyphens. */
  lemma NamesHostExactly(host: string, token: string)
    ensures NamesHost(host, token) <==> token != "" && (host == token || BoundedOccurrence(FirstLabel(host), token))
  {
    if token != "" { TokenMatchIsBoundedOccurrence(FirstLabel(host), token); }
  }

  /** Whether a label is a generated one for the service. */
  ghost predicate IsOwnLabel(q: Request, lbl: string, name: string) {
    && Sanitize(name) != ""
    && exists a, group, b :: IsOwn(lbl, Sanitize(name), q.digest(group + "/" + TrimSpace(name)), a, group, b)
  }

  ghost predicate IsOwn(lbl: string, svc: string, hash: string, a: string, group: string, b: string) {
    && group != "" && IsLowerHex8(hash) && BoundedBefore(a) && BoundedAfter(b)
    && lbl == a + ("pg-" + (group + ("-" + svc + "-" + (hash + b))))
  }

  lemma IsGeneratedExactly(q: Request, lbl: string, name: string)
    ensures IsGenerated(q, lbl, name) <==> IsOwnLabel(q, lbl, name)
  {
    if IsGenerated(q, lbl, name) {
      var a, group, hash, b :| Decomposes(lbl, Sanitize(name), TrimSpace(name), q.digest, a, group, hash, b);
      assert IsOwn(lbl, Sanitize(name), q.digest(group + "/" + TrimSpace(name)), a, group, b);
    }
    if IsOwnLabel(q, lbl, name) {
      var a, group, b :| IsOwn(lbl, Sanitize(name), q.digest(group + "/" + TrimSpace(name)), a, group, b);
      assert Decomposes(lbl, Sanitize(name), TrimSpace(name), q.digest,
                        a, group, q.digest(group + "/" + TrimSpace(name)), b);
    }
  }

  /** The host of a service's own URL, if it has one. */
  function OwnLabel(q: Request, s: Service): Option<string> {
    match q.hostOf(TrimSpace(s.url))
    case Some(h) => Some(FirstLabel(ToLower(h)))
    case None => None
  }

  /** The child-environment test, exactly: the host names the service's environment; or it names the label of the
      service's own URL, which is a generated one; or its first label is a generated one for the service. */
  lemma ChildEnvExactly(q: Request, host: string, s: Service)
    ensures MatchesChildEnv(q, host, s)
       <==> || NamesHost(host, Sanitize(s.environmentName))
            || (OwnLabel(q, s).Some? && IsOwnLabel(q, OwnLabel(q, s).value, s.name)
                && NamesHost(host, OwnLabel(q, s).value))
            || IsOwnLabel(q, FirstLabel(host), s.name)
  {
    IsGeneratedExactly(q, FirstLabel(host), s.name);
    if OwnLabel(q, s).Some? {
      var own := OwnLabel(q, s).value;
      IsGeneratedExactly(q, own, s.name);
      if IsOwnLabel(q, own, s.name) { OwnIsNotEmpty(q, own, s.name); }
    }
  }

  lemma OwnIsNotEmpty(q: Request, lbl: string, name: string)
    requires IsOwnLabel(q, lbl, name)
    ensures lbl != ""
  {
  }

  /** A request to the host that the group's template gives for a service is a template match. */
  lemma TemplateFindsService(q: Request, host: string, s: Service, parts: seq<string>, token: string)
    requires |parts| > 1 && (forall i :: 0 <= i < |parts| ==> '{' !in parts[i]) && q.external == Joined(parts, "{env}")
    requires token != "" && token in {TrimSpace(s.environmentName), TrimSpace(s.name)}
    requires q.hostOf(Joined(parts, token)).Some? && EqualFold(q.hostOf(Joined(parts, token)).value, host)
    ensures MatchesTemplate(q, host, s)
  {
    TemplateExpands(parts, "{env}", token);
    HoldsPlaceholder(parts, "{env}");
  }

  lemma HoldsPlaceholder(parts: seq<string>, find: string)
    requires |parts| > 1
    ensures Contains(Joined(parts, find), find)
  {
    var t := Joined(parts, find);
    assert t == parts[0] + find + Joined(parts[1..], find);
    assert OccursAt(t, find, |parts[0]|);
  }

  /** The parts of a template, joined by a text. */
  function Joined(parts: seq<string>, between: string): string {
    if parts == [] then "" else if |parts| == 1 then parts[0] else parts[0] + between + Joined(parts[1..], between)
  }

  /** Replacing passes over a text in which the placeholder cannot begin. */
  lemma {:induction false} PassesOver(a: string, s: string, find: string, with: string)
    requires find != "" && find[0] !in a && (s == "" || find <= s)
    ensures ReplaceAll(a + s, find, with) == a + ReplaceAll(s, find, with)
    decreases |a|
  {
    if a == "" {
      assert a + s == s;
    } else if |a + s| >= |find| {
      PassesOne(a[0], a[1..] + s, find, with);
      assert a + s == [a[0]] + (a[1..] + s);
      PassesOver(a[1..], s, find, with);
      assert a == [a[0]] + a[1..];
    }
  }

  lemma PassesOne(c: char, s: string, find: string, with: string)
    requires find != "" && find[0] != c && |s| + 1 >= |find|
    ensures ReplaceAll([c] + s, find, with) == [c] + ReplaceAll(s, find, with)
  {
    var t := [c] + s;
    assert t[1..] == s && t[..|find|][0] == c;
  }

  /** A template whose parts hold no brace of their own is expanded everywhere, and only there. */
  lemma {:induction false} TemplateExpands(parts: seq<string>, find: string, with: string)
    requires find != "" && forall i :: 0 <= i < |parts| ==> find[0] !in parts[i]
    ensures ReplaceAll(Joined(parts, find), find, with) == Joined(parts, with)
    decreases |parts|
  {
    if |parts| == 1 {
      PassesOver(parts[0], "", find, with);
      assert parts[0] + "" == parts[0];
    } else if |parts| > 1 {
      var rest := Joined(parts[1..], find);
      TemplateExpands(parts[1..], find, with);
      PassesOver(parts[0], find + rest, find, with);
      Regroup(parts[0], find, rest);
      assert (find + rest)[..|find|] == find && (find + rest)[|find|..] == rest;
      Regroup(parts[0], with, ReplaceAll(rest, find, with));
    }
  }
}
