/**
 * `get_default_gateway`: run `ip route show default`, pick out every
 * default-route entry with its gateway, device, source address and metric,
 * and return the entry with the smallest metric.
 *
 * The code extracts entries with `re.findall` and the pattern
 * `default via (\S+).*? dev (\S+).*?src (\S+).*?metric (\d+)`. Since `.`
 * does not match a newline, every entry lies within one line of the
 * output. This module reads each line as a sequence of white-space
 * separated tokens and looks for the keywords as whole tokens, in the
 * pattern's order, each at its leftmost position (the lazy `.*?`).
 */
module Routes {
  import opened Wrappers
  import opened Commands

  datatype RouteInfo = RouteInfo(gateway: string, interface: string, src: string, metric: nat)

  // ---------------------------------------------------------------------
  // Lines and tokens

  /** The output cut at every `\n`; each piece (possibly empty) is one line. */
  function Lines(s: string): (ls: seq<string>)
    ensures |ls| >= 1
    ensures forall k :: 0 <= k < |ls| ==> '\n' !in ls[k]
  {
    if s == [] then [[]]
    else
      var rest := Lines(s[1..]);
      if s[0] == '\n' then [[]] + rest else [[s[0]] + rest[0]] + rest[1..]
  }

  /** The lines put back together, one `\n` between two neighbours. */
  function JoinLines(ls: seq<string>): string
    requires |ls| >= 1
  {
    if |ls| == 1 then ls[0] else ls[0] + "\n" + JoinLines(ls[1..])
  }

  /** Cutting into lines loses nothing: joining the lines gives the output back. */
  lemma {:induction false} JoinLinesOfLines(s: string)
    ensures JoinLines(Lines(s)) == s
  {
    if s != [] {
      var rest := Lines(s[1..]);
      JoinLinesOfLines(s[1..]);
      if s[0] == '\n' {
        assert Lines(s) == [[]] + rest;
        assert Lines(s)[1..] == rest;
      } else if |rest| == 1 {
        assert Lines(s) == [[s[0]] + rest[0]];
      } else {
        var ls := Lines(s);
        assert ls == [[s[0]] + rest[0]] + rest[1..];
        assert ls[1..] == rest[1..];
        assert JoinLines(rest) == rest[0] + "\n" + JoinLines(rest[1..]);
      }
    }
  }

  /** A newline-free prefix belongs to the first line. */
  lemma {:induction false} LinesOfPrefix(w: string, tail: string)
    requires '\n' !in w
    ensures Lines(w + tail) == [w + Lines(tail)[0]] + Lines(tail)[1..]
  {
    if w != [] {
      var l := Lines(tail);
      var rest := Lines(w[1..] + tail);
      assert (w + tail)[0] == w[0] && w[0] in w;
      assert (w + tail)[1..] == w[1..] + tail;
      assert '\n' !in w[1..] by {
        forall c | c in w[1..] ensures c in w { }
      }
      LinesOfPrefix(w[1..], tail);
      assert rest[0] == w[1..] + l[0] && rest[1..] == l[1..];
      assert Lines(w + tail) == [[w[0]] + rest[0]] + rest[1..];
      assert [w[0]] + (w[1..] + l[0]) == w + l[0];
    } else {
      var l := Lines(tail);
      assert w + tail == tail && w + l[0] == l[0];
      assert l == [l[0]] + l[1..];
    }
  }

  /** Cutting lines joined by newlines gives the lines back. */
  lemma {:induction false} LinesOfJoinLines(ls: seq<string>)
    requires |ls| >= 1
    requires forall k :: 0 <= k < |ls| ==> '\n' !in ls[k]
    ensures Lines(JoinLines(ls)) == ls
  {
    if |ls| == 1 {
      LinesOfPrefix(ls[0], []);
      assert ls[0] + [] == ls[0];
      assert Lines([])[1..] == [];
    } else {
      var tail := "\n" + JoinLines(ls[1..]);
      assert JoinLines(ls) == ls[0] + tail;
      LinesOfPrefix(ls[0], tail);
      assert tail[1..] == JoinLines(ls[1..]);
      LinesOfJoinLines(ls[1..]);
      assert Lines(tail) == [[]] + ls[1..];
      assert ls[0] + [] == ls[0];
      assert ls == [ls[0]] + ls[1..];
    }
  }

  /** The length of the run of non-space characters at the front of `s`. */
  function RunLength(s: string): (n: nat)
    ensures n <= |s|
    ensures forall k :: 0 <= k < n ==> !IsSpace(s[k])
    ensures n < |s| ==> IsSpace(s[n])
  {
    if s == [] || IsSpace(s[0]) then 0 else 1 + RunLength(s[1..])
  }

  /** The maximal runs of non-space characters of a line, in order (the
      strings `\S+` matches greedily). */
  function Tokens(s: string): (ts: seq<string>)
    ensures forall k :: 0 <= k < |ts| ==> ts[k] != [] && forall c :: c in ts[k] ==> !IsSpace(c)
    decreases |s|
  {
    if s == [] then []
    else if IsSpace(s[0]) then Tokens(s[1..])
    else
      var n := RunLength(s);
      [s[..n]] + Tokens(s[n..])
  }

  /** A non-empty run of non-space characters. */
  predicate IsWord(w: string) {
    w != [] && forall k :: 0 <= k < |w| ==> !IsSpace(w[k])
  }

  /** Words separated by single spaces, as `ip route` prints the fields of
      a route. */
  function JoinSpace(ws: seq<string>): string {
    if ws == [] then [] else if |ws| == 1 then ws[0] else ws[0] + " " + JoinSpace(ws[1..])
  }

  /** The run at the front of a word followed by white space is the word. */
  lemma {:induction false} RunLengthOfWord(w: string, rest: string)
    requires IsWord(w)
    requires rest == [] || IsSpace(rest[0])
    ensures RunLength(w + rest) == |w|
  {
    if |w| > 1 {
      assert (w + rest)[1..] == w[1..] + rest;
      RunLengthOfWord(w[1..], rest);
    } else {
      assert (w + rest)[1..] == rest;
    }
  }

  /** A word followed by white space is the first token. */
  lemma {:induction false} TokensOfWord(w: string, rest: string)
    requires IsWord(w)
    requires rest == [] || IsSpace(rest[0])
    ensures Tokens(w + rest) == [w] + Tokens(rest)
  {
    RunLengthOfWord(w, rest);
    assert (w + rest)[..|w|] == w;
    assert (w + rest)[|w|..] == rest;
  }

  /** Tokenizing words joined by spaces gives the words back. */
  lemma {:induction false} TokensOfJoinSpace(ws: seq<string>)
    requires forall k :: 0 <= k < |ws| ==> IsWord(ws[k])
    ensures Tokens(JoinSpace(ws)) == ws
  {
    if |ws| == 1 {
      TokensOfWord(ws[0], []);
      assert ws[0] + [] == ws[0];
    } else if |ws| > 1 {
      var rest := " " + JoinSpace(ws[1..]);
      assert JoinSpace(ws) == ws[0] + rest;
      TokensOfWord(ws[0], rest);
      assert rest[1..] == JoinSpace(ws[1..]);
      assert Tokens(rest) == Tokens(JoinSpace(ws[1..]));
      TokensOfJoinSpace(ws[1..]);
      assert ws == [ws[0]] + ws[1..];
    }
  }

  lemma {:induction false} JoinSpaceCons(w: string, ws: seq<string>)
    requires ws != []
    ensures JoinSpace([w] + ws) == w + " " + JoinSpace(ws)
  {
    assert ([w] + ws)[1..] == ws;
  }

  /** Words joined by spaces hold no newline. */
  lemma {:induction false} NoNewlineInJoinSpace(ws: seq<string>)
    requires forall k :: 0 <= k < |ws| ==> IsWord(ws[k])
    ensures '\n' !in JoinSpace(ws)
  {
    if |ws| == 1 {
      assert IsWord(ws[0]);
    } else if |ws| > 1 {
      NoNewlineInJoinSpace(ws[1..]);
      assert IsWord(ws[0]);
      assert JoinSpace(ws) == ws[0] + " " + JoinSpace(ws[1..]);
    }
  }

  predicate IsDigit(c: char) {
    '0' <= c <= '9'
  }

  /** The number of decimal digits at the front of `t` (what `\d+` takes). */
  function DigitRun(t: string): (n: nat)
    ensures n <= |t|
    ensures forall k :: 0 <= k < n ==> IsDigit(t[k])
    ensures n < |t| ==> !IsDigit(t[n])
  {
    if t == [] || !IsDigit(t[0]) then 0 else 1 + DigitRun(t[1..])
  }

  /** `int()` of a string of decimal digits. */
  function DecimalValue(ds: string): nat
    requires forall k :: 0 <= k < |ds| ==> IsDigit(ds[k])
  {
    if ds == [] then 0
    else
      assert IsDigit(ds[|ds| - 1]);
      10 * DecimalValue(ds[..|ds| - 1]) + (ds[|ds| - 1] as int - '0' as int)
  }

  // ---------------------------------------------------------------------
  // The pattern, token by token

  /** `ts[j]` is the keyword `kw` and a value token follows it; for the
      metric the value must begin with a digit. */
  predicate KeywordAt(ts: seq<string>, kw: string, numeric: bool, j: int) {
    && 0 <= j && j + 1 < |ts| && ts[j] == kw
    && (!numeric || (ts[j + 1] != [] && IsDigit(ts[j + 1][0])))
  }

  /** The leftmost keyword `kw` at or after position `from`: the match the
      lazy `.*?` in front of the keyword settles on. */
  function FindKeyword(ts: seq<string>, kw: string, numeric: bool, from: nat): (r: Option<nat>)
    ensures r.Some? ==> from <= r.value && KeywordAt(ts, kw, numeric, r.value)
    ensures r.Some? ==> forall m :: from <= m < r.value ==> !KeywordAt(ts, kw, numeric, m)
    ensures r.None? ==> forall m :: from <= m ==> !KeywordAt(ts, kw, numeric, m)
    decreases |ts| - from
  {
    if from + 1 >= |ts| then None
    else if KeywordAt(ts, kw, numeric, from) then Some(from)
    else FindKeyword(ts, kw, numeric, from + 1)
  }

  /** The number `(\d+)` captures from the token after `metric`: its
      leading decimal digits, read by `int()`. */
  function MetricValue(t: string): nat {
    DecimalValue(t[..DigitRun(t)])
  }

  predicate DefaultViaAt(ts: seq<string>, i: int) {
    0 <= i && i + 2 < |ts| && ts[i] == "default" && ts[i + 1] == "via"
  }

  /** One match of the pattern starting at token `i`, and where the search
      for the next match resumes. */
  datatype Match = Match(route: RouteInfo, next: nat)

  function MatchAt(ts: seq<string>, i: nat): (r: Option<Match>)
    ensures !DefaultViaAt(ts, i) ==> r.None?
    ensures r.Some? ==> r.value.route.gateway == ts[i + 2] && i < r.value.next <= |ts|
  {
    if !DefaultViaAt(ts, i) then None
    else
      match FindKeyword(ts, "dev", false, i + 3)
      case None => None
      case Some(d) =>
        match FindKeyword(ts, "src", false, d + 2)
        case None => None
        case Some(s) =>
          match FindKeyword(ts, "metric", true, s + 2)
          case None => None
          case Some(m) =>
            Some(Match(RouteInfo(ts[i + 2], ts[d + 1], ts[s + 1], MetricValue(ts[m + 1])), m + 2))
  }

  /** `re.findall` over the tokens of one line: try every position from
      left to right and, after a match, resume behind it. */
  function FindAll(ts: seq<string>, i: nat): (rs: seq<RouteInfo>)
    ensures (forall j :: i <= j ==> !DefaultViaAt(ts, j)) ==> rs == []
    decreases |ts| - i
  {
    if i >= |ts| then []
    else
      match MatchAt(ts, i)
      case Some(m) => [m.route] + FindAll(ts, m.next)
      case None => FindAll(ts, i + 1)
  }

  /** The pattern occurs at token `p`: `default via <gateway>`, then `dev`
      at `d`, `src` at `s` and `metric` with a numeric value at `m`, each
      keyword after the previous one's value. */
  predicate PatternAt(ts: seq<string>, p: int, d: int, s: int, m: int) {
    && DefaultViaAt(ts, p)
    && p + 3 <= d && KeywordAt(ts, "dev", false, d)
    && d + 2 <= s && KeywordAt(ts, "src", false, s)
    && s + 2 <= m && KeywordAt(ts, "metric", true, m)
  }

  /** The entry an occurrence of the pattern captures. */
  function EntryOf(ts: seq<string>, p: int, d: int, s: int, m: int): RouteInfo
    requires PatternAt(ts, p, d, s, m)
  {
    RouteInfo(ts[p + 2], ts[d + 1], ts[s + 1], MetricValue(ts[m + 1]))
  }

  /** The pattern matches at `i` exactly when its keywords occur after it
      in order; the match captures such an occurrence and resumes after
      its metric. */
  lemma {:induction false} MatchAtIff(ts: seq<string>, i: nat)
    ensures MatchAt(ts, i).Some? <==> exists d, s, m :: PatternAt(ts, i, d, s, m)
    ensures MatchAt(ts, i).Some? ==> exists d, s, m ::
      && PatternAt(ts, i, d, s, m)
      && MatchAt(ts, i).value == Match(EntryOf(ts, i, d, s, m), m + 2)
  {
    if MatchAt(ts, i).Some? {
      var d := FindKeyword(ts, "dev", false, i + 3).value;
      var s := FindKeyword(ts, "src", false, d + 2).value;
      var m := FindKeyword(ts, "metric", true, s + 2).value;
      assert PatternAt(ts, i, d, s, m);
      assert MatchAt(ts, i).value == Match(EntryOf(ts, i, d, s, m), m + 2);
    }
    if exists d, s, m :: PatternAt(ts, i, d, s, m) {
      var d, s, m :| PatternAt(ts, i, d, s, m);
      var d' := FindKeyword(ts, "dev", false, i + 3);
      assert d'.Some? && d'.value <= d;
      var s' := FindKeyword(ts, "src", false, d'.value + 2);
      assert s'.Some? && s'.value <= s;
      var m' := FindKeyword(ts, "metric", true, s'.value + 2);
      assert m'.Some?;
    }
  }

  /** Every entry `re.findall` returns from token `i` on is captured by an
      occurrence of the pattern at or after `i`. */
  lemma {:induction false} FindAllOnlyIf(ts: seq<string>, i: nat)
    ensures forall r :: r in FindAll(ts, i) ==>
      exists p, d, s, m :: i <= p && PatternAt(ts, p, d, s, m) && r == EntryOf(ts, p, d, s, m)
    decreases |ts| - i
  {
    if i < |ts| {
      MatchAtIff(ts, i);
      match MatchAt(ts, i)
      case Some(mt) =>
        FindAllOnlyIf(ts, mt.next);
        forall r | r in FindAll(ts, i)
          ensures exists p, d, s, m :: i <= p && PatternAt(ts, p, d, s, m) && r == EntryOf(ts, p, d, s, m)
        {
          if r != mt.route {
            assert r in FindAll(ts, mt.next);
          }
        }
      case None =>
        FindAllOnlyIf(ts, i + 1);
    }
  }

  /** `re.findall` finds nothing from token `i` on exactly when the pattern
      does not occur at or after `i`. */
  lemma {:induction false} FindAllEmptyIff(ts: seq<string>, i: nat)
    ensures FindAll(ts, i) == [] <==> forall p, d, s, m :: i <= p ==> !PatternAt(ts, p, d, s, m)
    decreases |ts| - i
  {
    if i < |ts| {
      MatchAtIff(ts, i);
      FindAllEmptyIff(ts, i + 1);
      if MatchAt(ts, i).None? {
        forall p, d, s, m | i <= p && PatternAt(ts, p, d, s, m) ensures i + 1 <= p {
          if p == i { assert false; }
        }
      } else {
        var d, s, m :| PatternAt(ts, i, d, s, m);
      }
    } else {
      forall p, d, s, m | i <= p ensures !PatternAt(ts, p, d, s, m) {}
    }
  }

  function ParseLines(ls: seq<string>): seq<RouteInfo> {
    if ls == [] then [] else FindAll(Tokens(ls[0]), 0) + ParseLines(ls[1..])
  }

  /** All matches of the route pattern in the command's output, in the
      order in which they appear. */
  function ParseRoutes(out: string): seq<RouteInfo> {
    ParseLines(Lines(out))
  }

  /** The pattern occurs somewhere in the line `l`. */
  ghost predicate LineHasRoute(l: string) {
    exists p, d, s, m :: PatternAt(Tokens(l), p, d, s, m)
  }

  /** No entry is found exactly when no line holds the pattern. */
  lemma {:induction false} ParseLinesEmptyIff(ls: seq<string>)
    ensures ParseLines(ls) == [] <==> forall k :: 0 <= k < |ls| ==> !LineHasRoute(ls[k])
  {
    if ls != [] {
      FindAllEmptyIff(Tokens(ls[0]), 0);
      ParseLinesEmptyIff(ls[1..]);
      if ParseLines(ls) == [] {
        forall k | 0 <= k < |ls| ensures !LineHasRoute(ls[k]) {
          if k > 0 { assert ls[k] == ls[1..][k - 1]; }
        }
      }
      if forall k :: 0 <= k < |ls| ==> !LineHasRoute(ls[k]) {
        assert !LineHasRoute(ls[0]);
        forall k | 0 <= k < |ls| - 1 ensures !LineHasRoute(ls[1..][k]) {
          assert ls[1..][k] == ls[k + 1];
        }
      }
    }
  }

  /** `r` is captured by an occurrence of the pattern in one of the lines. */
  ghost predicate FromLine(ls: seq<string>, r: RouteInfo) {
    exists k, p, d, s, m ::
      0 <= k < |ls| && PatternAt(Tokens(ls[k]), p, d, s, m) && r == EntryOf(Tokens(ls[k]), p, d, s, m)
  }

  /** Every entry found is captured by an occurrence of the pattern in one
      of the lines. */
  lemma {:induction false} ParseLinesOnlyIf(ls: seq<string>)
    ensures forall r :: r in ParseLines(ls) ==> FromLine(ls, r)
  {
    if ls != [] {
      FindAllOnlyIf(Tokens(ls[0]), 0);
      ParseLinesOnlyIf(ls[1..]);
      forall r | r in ParseLines(ls) ensures FromLine(ls, r) {
        if r in FindAll(Tokens(ls[0]), 0) {
          var p, d, s, m :| 0 <= p && PatternAt(Tokens(ls[0]), p, d, s, m) && r == EntryOf(Tokens(ls[0]), p, d, s, m);
          assert PatternAt(Tokens(ls[0]), p, d, s, m);
        } else {
          assert r in ParseLines(ls[1..]);
          assert FromLine(ls[1..], r);
          var k, p, d, s, m :| 0 <= k < |ls[1..]| && PatternAt(Tokens(ls[1..][k]), p, d, s, m)
            && r == EntryOf(Tokens(ls[1..][k]), p, d, s, m);
          assert ls[1..][k] == ls[k + 1];
          assert PatternAt(Tokens(ls[k + 1]), p, d, s, m);
        }
      }
    }
  }

  /** Over the whole output: no entry exactly when no line holds the
      pattern, and every entry comes from an occurrence in some line. */
  lemma {:induction false} ParseRoutesIff(out: string)
    ensures ParseRoutes(out) == [] <==> forall k :: 0 <= k < |Lines(out)| ==> !LineHasRoute(Lines(out)[k])
    ensures forall r :: r in ParseRoutes(out) ==> FromLine(Lines(out), r)
  {
    assert ParseRoutes(out) == ParseLines(Lines(out));
    ParseLinesEmptyIff(Lines(out));
    ParseLinesOnlyIf(Lines(out));
  }

  /** The tokens of a default route as `ip route` prints it yield exactly
      that route, with the metric read as a decimal number. */
  lemma {:induction false} WellFormedTokensMatch(g: string, dev: string, proto: string, src: string, metric: string)
    requires proto != "src"
    requires metric != [] && forall k :: 0 <= k < |metric| ==> IsDigit(metric[k])
    ensures FindAll(["default", "via", g, "dev", dev, "proto", proto, "src", src, "metric", metric], 0)
            == [RouteInfo(g, dev, src, DecimalValue(metric))]
  {
    var ts := ["default", "via", g, "dev", dev, "proto", proto, "src", src, "metric", metric];
    assert FindKeyword(ts, "dev", false, 3) == Some(3);
    assert !KeywordAt(ts, "src", false, 5) && !KeywordAt(ts, "src", false, 6);
    assert FindKeyword(ts, "src", false, 7) == Some(7);
    assert FindKeyword(ts, "src", false, 5) == Some(7);
    assert FindKeyword(ts, "metric", true, 9) == Some(9);
    assert DigitRun(metric) == |metric|;
    assert metric[..|metric|] == metric;
    assert MatchAt(ts, 0) == Some(Match(RouteInfo(g, dev, src, DecimalValue(metric)), 11));
  }

  /** The fields of a default route, in the order `ip route show default`
      prints them. */
  function RouteFields(g: string, dev: string, proto: string, src: string, metric: string): seq<string> {
    ["default", "via", g, "dev", dev, "proto", proto, "src", src, "metric", metric]
  }

  /** The line `ip route show default` prints for a default route: its
      fields separated by single spaces,
      `default via <g> dev <dev> proto <proto> src <src> metric <metric>`. */
  function RouteLine(g: string, dev: string, proto: string, src: string, metric: string): string {
    JoinSpace(RouteFields(g, dev, proto, src, metric))
  }

  /** An output of one line with its newline yields the matches of that line. */
  lemma {:induction false} SingleLineParses(line: string)
    requires '\n' !in line
    ensures ParseRoutes(line + "\n") == FindAll(Tokens(line), 0)
  {
    LinesOfJoinLines([line, []]);
    assert JoinLines([line, []]) == line + "\n";
    assert [line, []][1..] == [[]];
    assert ParseLines([[]]) == FindAll(Tokens([]), 0) + ParseLines([]) == [];
    assert ParseLines([line, []]) == FindAll(Tokens(line), 0) + [];
  }

  /** The output `ip route` prints for a single default route yields
      exactly that route, with the metric read as a decimal number. */
  lemma {:induction false} WellFormedLineParses(g: string, dev: string, proto: string, src: string, metric: string)
    requires IsWord(g) && IsWord(dev) && IsWord(proto) && IsWord(src)
    requires proto != "src"
    requires metric != [] && forall k :: 0 <= k < |metric| ==> IsDigit(metric[k])
    ensures ParseRoutes(RouteLine(g, dev, proto, src, metric) + "\n") == [RouteInfo(g, dev, src, DecimalValue(metric))]
  {
    var ts := RouteFields(g, dev, proto, src, metric);
    assert IsWord(metric);
    assert forall k :: 0 <= k < |ts| ==> IsWord(ts[k]);
    TokensOfJoinSpace(ts);
    NoNewlineInJoinSpace(ts);
    SingleLineParses(RouteLine(g, dev, proto, src, metric));
    WellFormedTokensMatch(g, dev, proto, src, metric);
  }

  // ---------------------------------------------------------------------
  // `matches.sort(key=lambda x: int(x[3]))`: a stable sort by metric

  predicate SortedByMetric(s: seq<RouteInfo>) {
    forall i, j :: 0 <= i < j < |s| ==> s[i].metric <= s[j].metric
  }

  /** Put `e` in front of the first entry whose metric is not smaller, so
      that it stays ahead of the entries with an equal metric. */
  function Insert(e: RouteInfo, s: seq<RouteInfo>): (r: seq<RouteInfo>)
    ensures multiset(r) == multiset(s) + multiset{e}
    ensures r[0] == e || (s != [] && r[0] == s[0])
  {
    if s == [] || e.metric <= s[0].metric then [e] + s
    else
      assert s == [s[0]] + s[1..];
      [s[0]] + Insert(e, s[1..])
  }

  /** Inserting into a sorted list keeps it sorted. */
  lemma {:induction false} InsertKeepsSorted(e: RouteInfo, s: seq<RouteInfo>)
    requires SortedByMetric(s)
    ensures SortedByMetric(Insert(e, s))
  {
    if s != [] && e.metric > s[0].metric {
      var t := Insert(e, s[1..]);
      InsertKeepsSorted(e, s[1..]);
      assert s[0].metric <= t[0].metric;
      var r := [s[0]] + t;
      assert Insert(e, s) == r;
      forall i, j | 0 <= i < j < |r| ensures r[i].metric <= r[j].metric {
        if i == 0 {
          assert r[j] == t[j - 1];
          assert t[0].metric <= t[j - 1].metric;
        } else {
          assert r[i] == t[i - 1] && r[j] == t[j - 1];
        }
      }
    }
  }

  /** Insertion sort, as stable as Python's `list.sort`. */
  function SortByMetric(s: seq<RouteInfo>): (r: seq<RouteInfo>)
    ensures SortedByMetric(r)
    ensures multiset(r) == multiset(s)
  {
    if s == [] then []
    else
      assert s == [s[0]] + s[1..];
      var t := SortByMetric(s[1..]);
      InsertKeepsSorted(s[0], t);
      Insert(s[0], t)
  }

  /** The reference for the selection: the first position holding the
      smallest metric. */
  function FirstMin(s: seq<RouteInfo>): (k: nat)
    requires s != []
    ensures k < |s|
    ensures forall j :: 0 <= j < |s| ==> s[k].metric <= s[j].metric
    ensures forall j :: 0 <= j < k ==> s[j].metric > s[k].metric
  {
    if |s| == 1 then 0
    else
      var k := FirstMin(s[1..]);
      if s[0].metric <= s[1 + k].metric then 0 else 1 + k
  }

  /** The head of the stable sort is the first entry with the smallest metric. */
  lemma {:induction false} SortHeadIsFirstMin(s: seq<RouteInfo>)
    requires s != []
    ensures SortByMetric(s) != [] && SortByMetric(s)[0] == s[FirstMin(s)]
  {
    if |s| > 1 {
      var t := SortByMetric(s[1..]);
      var k := FirstMin(s[1..]);
      SortHeadIsFirstMin(s[1..]);
      assert t[0] == s[1 + k];
      assert SortByMetric(s) == Insert(s[0], t);
      if s[0].metric <= t[0].metric {
        assert Insert(s[0], t)[0] == s[0] && FirstMin(s) == 0;
      } else {
        assert Insert(s[0], t)[0] == t[0] && FirstMin(s) == 1 + k;
      }
    } else {
      assert SortByMetric(s) == Insert(s[0], []);
    }
  }

  // ---------------------------------------------------------------------
  // `get_default_gateway`

  /** Which of the code's messages a failed resolution logs. */
  datatype ResolveError =
    | QueryRaised            // an exception; "Error retrieving default gateway"
    | QueryFailed(stderr: string)   // non-zero exit; "Error retrieving default route"
    | NoDefaultRoute         // empty output; "No default route found."
    | NoMatchingRoute        // no entry matched; "No matching routes found."

  datatype Resolution = Found(route: RouteInfo) | NotFound(reason: ResolveError)

  /** `get_default_gateway`: a found route comes from a successful query
      and is one of the entries its output holds. */
  function Resolve(q: CommandResult): (r: Resolution)
    ensures r.Found? ==> q.Completed? && q.returncode == 0 && r.route in ParseRoutes(q.stdout)
  {
    match q
    case Raised => NotFound(QueryRaised)
    case Completed(rc, out, err) =>
      if rc != 0 then NotFound(QueryFailed(err))
      else if out == "" then NotFound(NoDefaultRoute)
      else
        var matches := ParseRoutes(out);
        if matches == [] then NotFound(NoMatchingRoute)
        else
          var sorted := SortByMetric(matches);
          assert sorted[0] in multiset(sorted);
          Found(sorted[0])
  }

  /** Resolution fails exactly when the query raised, exited non-zero,
      printed nothing, or printed no matching entry. */
  lemma {:induction false} ResolveNotFoundIff(q: CommandResult)
    ensures Resolve(q).NotFound? <==>
      q.Raised? || q.returncode != 0 || q.stdout == "" || ParseRoutes(q.stdout) == []
  {
  }

  /** A found route is one of the matched entries; its metric is at most
      every matched entry's metric, and every entry before it has a larger
      metric. */
  lemma {:induction false} ResolveSelectsFirstMinimum(q: CommandResult)
    requires Resolve(q).Found?
    ensures q.Completed? && ParseRoutes(q.stdout) != []
    ensures var ms := ParseRoutes(q.stdout); var k := FirstMin(ms);
      && Resolve(q).route == ms[k]
      && (forall j :: 0 <= j < |ms| ==> Resolve(q).route.metric <= ms[j].metric)
      && (forall j :: 0 <= j < k ==> ms[j].metric > Resolve(q).route.metric)
  {
    SortHeadIsFirstMin(ParseRoutes(q.stdout));
  }

  /** Three default routes with metrics 5, 2 and 9: the second is chosen. */
  lemma {:induction false} SelectsMetricTwo(a: RouteInfo, b: RouteInfo, c: RouteInfo)
    requires a.metric == 5 && b.metric == 2 && c.metric == 9
    ensures SortByMetric([a, b, c])[0] == b
  {
  }

  /** Two entries with equal metrics: the one printed first is chosen. */
  lemma {:induction false} TieGoesToFirstSeen(a: RouteInfo, b: RouteInfo)
    requires a.metric == b.metric
    ensures SortByMetric([a, b])[0] == a
  {
  }
}
