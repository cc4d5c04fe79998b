/**
 Bold markup rendered to plain text and to HTML (internal/notifier/render.go),
 with the regular expression \*\*(.+?)\*\* spelled out: leftmost match, shortest
 content, at least one character of it, and no newline in it.
 */
module BoldMarkup {
  import opened Basics

  // ---- the match ----

  /** Two asterisks stand at place i. */
  predicate IsMark(s: string, i: nat) {
    i + 2 <= |s| && s[i] == '*' && s[i + 1] == '*'
  }

  /** What the expression accepts from place i up to e. */
  ghost predicate IsSpan(s: string, i: nat, e: nat) {
    i + 5 <= e <= |s| && IsMark(s, i) && IsMark(s, e - 2) && '\n' !in s[i + 2..e - 2]
  }

  datatype Span = Span(start: nat, end: nat)

  ghost predicate NoneStarts(s: string, from: nat, until: nat) {
    forall i: nat, e: nat :: from <= i < until ==> !IsSpan(s, i, e)
  }

  ghost predicate IsShortest(s: string, i: nat, e: nat) {
    IsSpan(s, i, e) && forall d: nat :: IsSpan(s, i, d) ==> e <= d
  }

  /** Where the first closing mark begins, unless a newline comes before it. */
  function CloseIn(t: string): Option<nat> {
    if |t| < 2 then None
    else if IsMark(t, 0) then Some(0)
    else if t[0] == '\n' then None
    else match CloseIn(t[1..])
         case Some(k) => Some(k + 1)
         case None => None
  }

  /** The length of the match that begins s, if one does. */
  function MatchAt(s: string): Option<nat> {
    if |s| < 3 || !IsMark(s, 0) || s[2] == '\n' then None
    else match CloseIn(s[3..])
         case Some(k) => Some(k + 5)
         case None => None
  }

  ghost predicate Closes(t: string, k: nat) {
    IsMark(t, k) && '\n' !in t[..k]
  }

  lemma {:induction false} CloseInIsFirst(t: string)
    ensures CloseIn(t).Some? ==> Closes(t, CloseIn(t).value)
    ensures forall k: nat :: Closes(t, k) ==> CloseIn(t).Some? && CloseIn(t).value <= k
  {
    if |t| >= 2 && !IsMark(t, 0) && t[0] != '\n' {
      CloseInIsFirst(t[1..]);
      if CloseIn(t).Some? {
        var k := CloseIn(t).value;
        assert t[..k] == [t[0]] + t[1..][..k - 1];
      }
      forall k: nat | Closes(t, k) ensures CloseIn(t).Some? && CloseIn(t).value <= k {
        assert t[..k] == [t[0]] + t[1..][..k - 1];
        assert Closes(t[1..], k - 1);
      }
    }
  }

  /** The match chosen at a place is the shortest the expression accepts there, and there is none only if it accepts none. */
  lemma MatchIsShortest(s: string, i: nat)
    requires i <= |s|
    ensures MatchAt(s[i..]).Some? ==> IsShortest(s, i, i + MatchAt(s[i..]).value)
    ensures MatchAt(s[i..]).None? ==> NoneStarts(s, i, i + 1)
  {
    if i + 3 <= |s| {
      var t := s[i..][3..];
      assert t == s[i + 3..];
      CloseInIsFirst(t);
      if MatchAt(s[i..]).Some? {
        var k := MatchAt(s[i..]).value - 5;
        assert s[i + 2..i + k + 3] == [s[i + 2]] + t[..k];
      }
      forall e: nat | IsSpan(s, i, e) ensures MatchAt(s[i..]).Some? && i + MatchAt(s[i..]).value <= e {
        assert s[i + 2..e - 2] == [s[i + 2]] + t[..e - i - 5];
        assert Closes(t, e - i - 5);
      }
    }
  }

  // ---- finding every match ----

  /** A line of text cut at its matches: single characters, and bold stretches without their marks. */
  datatype Line = End | Lit(c: char, rest: Line) | Bold(content: string, rest: Line)

  lemma MatchFits(s: string)
    ensures MatchAt(s).Some? ==> 5 <= MatchAt(s).value <= |s|
  {
    assert s[0..] == s;
    MatchIsShortest(s, 0);
  }

  function Parse(s: string): Line
    decreases |s|
  {
    if s == "" then End
    else match MatchAt(s)
         case Some(n) =>
           MatchFits(s);
           Bold(s[2..n - 2], Parse(s[n..]))
         case None => Lit(s[0], Parse(s[1..]))
  }

  /** What a search from left to right must find: each time the leftmost match, the shortest there, until none is left. */
  ghost predicate IsScan(s: string, from: nat, spans: seq<Span>)
    decreases |spans|
  {
    if spans == [] then NoneStarts(s, from, |s|)
    else
      && from <= spans[0].start && NoneStarts(s, from, spans[0].start)
      && IsShortest(s, spans[0].start, spans[0].end) && IsScan(s, spans[0].end, spans[1..])
  }

  /** The line cut at the given stretches. */
  function CutAt(s: string, from: nat, spans: seq<Span>): Line
    decreases |s| - from
  {
    if from >= |s| then End
    else if spans != [] && from == spans[0].start && from + 4 <= spans[0].end <= |s| then
      Bold(s[from + 2..spans[0].end - 2], CutAt(s, spans[0].end, spans[1..]))
    else Lit(s[from], CutAt(s, from + 1, spans))
  }

  /** The string from a place on is cut at the given stretches, and these are its scan. */
  ghost predicate CutsAtScan(s: string, from: nat, spans: seq<Span>) {
    from <= |s| && IsScan(s, from, spans) && Parse(s[from..]) == CutAt(s, from, spans)
  }

  lemma FoundHere(s: string, from: nat, n: nat, rest: seq<Span>)
    requires from <= |s| && MatchAt(s[from..]) == Some(n) && IsShortest(s, from, from + n) && CutsAtScan(s, from + n, rest)
    ensures exists spans :: CutsAtScan(s, from, spans)
  {
    var spans := [Span(from, from + n)] + rest;
    assert spans[0] == Span(from, from + n) && spans[1..] == rest;
    assert s[from..][n..] == s[from + n..];
    assert s[from..][2..n - 2] == s[from + 2..from + n - 2];
    assert CutsAtScan(s, from, spans);
  }

  lemma NotHere(s: string, from: nat, spans: seq<Span>)
    requires from < |s| && MatchAt(s[from..]) == None && NoneStarts(s, from, from + 1) && CutsAtScan(s, from + 1, spans)
    ensures CutsAtScan(s, from, spans)
  {
    assert s[from..][1..] == s[from + 1..];
  }

  /** Every line is cut at exactly the matches the expression prescribes. */
  lemma {:induction false} ParseCutsAtTheScan(s: string, from: nat)
    requires from <= |s|
    ensures exists spans :: CutsAtScan(s, from, spans)
    decreases |s| - from
  {
    if from == |s| {
      assert CutsAtScan(s, from, []);
    } else {
      MatchIsShortest(s, from);
      MatchFits(s[from..]);
      var next := if MatchAt(s[from..]).Some? then from + MatchAt(s[from..]).value else from + 1;
      ParseCutsAtTheScan(s, next);
      var rest :| CutsAtScan(s, next, rest);
      if MatchAt(s[from..]).Some? {
        FoundHere(s, from, next - from, rest);
      } else {
        NotHere(s, from, rest);
      }
    }
  }

  /** There is only one scan, so the cut is determined by the expression alone. */
  lemma {:induction false} ScanIsUnique(s: string, from: nat, a: seq<Span>, b: seq<Span>)
    requires IsScan(s, from, a) && IsScan(s, from, b)
    ensures a == b
    decreases |a|
  {
    if a != [] && b != [] {
      SameFirst(s, from, a[0], b[0]);
      ScanIsUnique(s, a[0].end, a[1..], b[1..]);
      assert a == [a[0]] + a[1..] && b == [b[0]] + b[1..];
    } else if a != [] || b != [] {
      assert false;
    }
  }

  lemma SameFirst(s: string, from: nat, a: Span, b: Span)
    requires from <= a.start && NoneStarts(s, from, a.start) && IsShortest(s, a.start, a.end)
    requires from <= b.start && NoneStarts(s, from, b.start) && IsShortest(s, b.start, b.end)
    ensures a == b
  {
    assert IsSpan(s, a.start, a.end) && IsSpan(s, b.start, b.end);
  }

  // ---- the two renderings ----

  /** Every match replaced by its content between two tags. */
  function Print(l: Line, open: string, close: string): string {
    match l
    case End => ""
    case Lit(c, rest) => [c] + Print(rest, open, close)
    case Bold(content, rest) => open + content + close + Print(rest, open, close)
  }

  function Plain(s: string): string {
    Print(Parse(s), "", "")
  }

  /** The line with a mark of one's own at both ends of every bold stretch. */
  function Marked(s: string, mark: string): string {
    Print(Parse(s), mark, mark)
  }

  /** With two asterisks for a mark that is the line itself. */
  lemma {:induction false} MarkedIsSource(s: string)
    ensures Marked(s, "**") == s
    decreases |s|
  {
    if s != "" {
      assert s[0..] == s;
      MatchIsShortest(s, 0);
      MatchFits(s);
      if MatchAt(s).Some? {
        var n := MatchAt(s).value;
        MarkedIsSource(s[n..]);
        assert s[..2] == "**" && s[n - 2..n] == "**";
        assert s == s[..2] + s[2..n - 2] + s[n - 2..n] + s[n..];
      } else {
        MarkedIsSource(s[1..]);
      }
    }
  }

  function EscapeChar(c: char): string {
    if c == '&' then "&amp;"
    else if c == '<' then "&lt;"
    else if c == '>' then "&gt;"
    else if c == '\'' then "&#39;"
    else if c == '"' then "&#34;"
    else [c]
  }

  /** Every character replaced by what f makes of it. */
  function Expand(f: char -> string, s: string): string {
    if s == "" then "" else f(s[0]) + Expand(f, s[1..])
  }

  function Escape(s: string): string {
    Expand(EscapeChar, s)
  }

  function HtmlLine(s: string): string {
    Print(Parse(Escape(s)), "<strong>", "</strong>")
  }

  // ---- escaping commutes with cutting ----

  /** A line cut first and expanded afterwards. */
  function ExpandLine(f: char -> string, l: Line): Line {
    match l
    case End => End
    case Lit(c, rest) => Lits(f(c), ExpandLine(f, rest))
    case Bold(content, rest) => Bold(Expand(f, content), ExpandLine(f, rest))
  }

  function Lits(w: string, rest: Line): Line {
    if w == "" then rest else Lit(w[0], Lits(w[1..], rest))
  }

  /** Characters that cannot take part in a mark or end a line. */
  predicate IsInert(w: string) {
    '*' !in w && '\n' !in w
  }

  /** Marks and newlines stay as they are, and nothing else turns into one. */
  ghost predicate IsTame(f: char -> string) {
    forall c :: IsTameAt(f, c)
  }

  ghost predicate IsTameAt(f: char -> string, c: char) {
    && f(c) != "" && IsInert(f(c)[1..])
    && (c == '*' || c == '\n' ==> f(c) == [c])
    && (c != '*' ==> f(c)[0] != '*') && (c != '\n' ==> f(c)[0] != '\n')
  }

  lemma EscapeIsTame()
    ensures IsTame(EscapeChar)
  {
    forall c ensures IsTameAt(EscapeChar, c) {
    }
  }

  function Shift(n: nat, k: Option<nat>): Option<nat> {
    match k
    case Some(v) => Some(n + v)
    case None => None
  }

  lemma Assoc(a: string, b: string, c: string)
    ensures a + (b + c) == a + b + c
  {
  }

  lemma ExpandCons(f: char -> string, c: char, t: string)
    ensures Expand(f, [c] + t) == f(c) + Expand(f, t)
  {
    assert ([c] + t)[1..] == t;
  }

  lemma {:induction false} ExpandSplits(f: char -> string, s: string, t: string)
    ensures Expand(f, s + t) == Expand(f, s) + Expand(f, t)
  {
    if s == "" {
      assert s + t == t;
    } else {
      ExpandSplits(f, s[1..], t);
      assert s + t == [s[0]] + (s[1..] + t);
      ExpandCons(f, s[0], s[1..] + t);
      Assoc(f(s[0]), Expand(f, s[1..]), Expand(f, t));
    }
  }

  lemma TameAt(f: char -> string, c: char)
    requires IsTame(f)
    ensures IsTameAt(f, c)
    ensures c != '*' && c != '\n' ==> IsInert(f(c))
  {
    assert IsTameAt(f, c);
  }

  lemma {:induction false} InertSkipped(w: string, t: string)
    requires IsInert(w)
    ensures CloseIn(w + t) == Shift(|w|, CloseIn(t))
  {
    if w == "" {
      assert w + t == t;
    } else {
      InertSkipped(w[1..], t);
      assert (w + t)[1..] == w[1..] + t;
    }
  }

  /** The first closing mark of the expanded string is where the expanded prefix ends. */
  lemma {:induction false} CloseCommutes(f: char -> string, t: string)
    requires IsTame(f)
    ensures CloseIn(t).Some? ==> CloseIn(t).value <= |t|
    ensures CloseIn(Expand(f, t)) == match CloseIn(t) case Some(k) => Some(|Expand(f, t[..k])|) case None => None
  {
    if t != "" {
      CloseCommutes(f, t[1..]);
      TameAt(f, t[0]);
      var w, u := f(t[0]), Expand(f, t[1..]);
      if CloseIn(t).Some? && CloseIn(t).value > 0 {
        var k := CloseIn(t).value;
        assert t[..k][1..] == t[1..][..k - 1];
      }
      if t[0] == '*' || t[0] == '\n' {
        assert (w + u)[1..] == u;
        if |t| >= 2 {
          TameAt(f, t[1]);
          assert u == f(t[1]) + Expand(f, t[1..][1..]);
        }
      } else {
        InertSkipped(w, u);
      }
    }
  }

  lemma ExpandMark(f: char -> string, t: string)
    requires IsTame(f)
    ensures Expand(f, "**" + t) == "**" + Expand(f, t)
  {
    TameAt(f, '*');
    ExpandCons(f, '*', t);
    ExpandCons(f, '*', "*" + t);
    assert "**" + t == "*" + ("*" + t);
  }

  lemma UnmarkedFirst(f: char -> string, c: char, t: string)
    requires IsTame(f) && c != '*'
    ensures MatchAt([c] + t).None? && MatchAt(Expand(f, [c] + t)).None?
  {
    TameAt(f, c);
    ExpandCons(f, c, t);
  }

  lemma UnmarkedSecond(f: char -> string, c: char, t: string)
    requires IsTame(f) && c != '*'
    ensures MatchAt("*" + ([c] + t)).None? && MatchAt(Expand(f, "*" + ([c] + t))).None?
  {
    TameAt(f, c);
    TameAt(f, '*');
    ExpandCons(f, c, t);
    ExpandCons(f, '*', [c] + t);
  }

  lemma UnmarkedThird(f: char -> string, t: string)
    requires IsTame(f)
    ensures MatchAt("**" + (['\n'] + t)).None? && MatchAt(Expand(f, "**" + (['\n'] + t))).None?
  {
    TameAt(f, '\n');
    ExpandMark(f, ['\n'] + t);
    ExpandCons(f, '\n', t);
  }

  /** What follows an opening mark is one character or its expansion, and then t. */
  lemma MarkedThen(w: string, t: string)
    requires w != "" && w[0] != '\n' && IsInert(w[1..])
    ensures MatchAt("**" + (w + t)) == Shift(4 + |w|, CloseIn(t))
  {
    var s := "**" + (w + t);
    assert s[3..] == w[1..] + t;
    InertSkipped(w[1..], t);
  }

  lemma MarkedCommutes(f: char -> string, c: char, t: string)
    requires IsTame(f) && c != '\n'
    ensures MatchAt("**" + ([c] + t)) == Shift(5, CloseIn(t))
    ensures MatchAt(Expand(f, "**" + ([c] + t))) == Shift(4 + |f(c)|, CloseIn(Expand(f, t)))
  {
    TameAt(f, c);
    ExpandMark(f, [c] + t);
    ExpandCons(f, c, t);
    MarkedThen([c], t);
    MarkedThen(f(c), Expand(f, t));
  }

  lemma ExpandedLength(f: char -> string, c: char, v: string)
    requires IsTame(f)
    ensures |Expand(f, "**" + ([c] + (v + "**")))| == 4 + |f(c)| + |Expand(f, v)|
  {
    ExpandMark(f, [c] + (v + "**"));
    ExpandCons(f, c, v + "**");
    ExpandSplits(f, v, "**");
    ExpandMark(f, "");
    assert "**" + "" == "**";
  }

  /** The expanded string begins with a match exactly when the string does, and it is the expanded match. */
  lemma MatchCommutes(f: char -> string, s: string)
    requires IsTame(f)
    ensures MatchAt(s).Some? ==> MatchAt(s).value <= |s|
    ensures MatchAt(Expand(f, s)) == match MatchAt(s) case Some(n) => Some(|Expand(f, s[..n])|) case None => None
  {
    MatchFits(s);
    if s == "" {
    } else if s[0] != '*' {
      assert s == [s[0]] + s[1..];
      UnmarkedFirst(f, s[0], s[1..]);
    } else if |s| == 1 {
      assert s == ['*'] + "";
      TameAt(f, '*');
      ExpandCons(f, '*', "");
    } else if s[1] != '*' {
      assert s == "*" + ([s[1]] + s[2..]);
      UnmarkedSecond(f, s[1], s[2..]);
    } else if |s| == 2 {
      assert s == "**" + "";
      ExpandMark(f, "");
    } else if s[2] == '\n' {
      assert s == "**" + (['\n'] + s[3..]);
      UnmarkedThird(f, s[3..]);
    } else {
      assert s == "**" + ([s[2]] + s[3..]);
      MarkedMatchCommutes(f, s[2], s[3..]);
    }
  }

  lemma MarkedMatchCommutes(f: char -> string, c: char, t: string)
    requires IsTame(f) && c != '\n'
    ensures var s := "**" + ([c] + t);
            && (MatchAt(s).Some? ==> MatchAt(s).value <= |s|)
            && MatchAt(Expand(f, s)) == match MatchAt(s) case Some(n) => Some(|Expand(f, s[..n])|) case None => None
  {
    var s := "**" + ([c] + t);
    MarkedCommutes(f, c, t);
    CloseCommutes(f, t);
    if CloseIn(t).Some? {
      var k := CloseIn(t).value;
      CloseInIsFirst(t);
      assert s[..k + 5] == "**" + ([c] + (t[..k] + "**"));
      ExpandedLength(f, c, t[..k]);
    }
  }

  lemma {:induction false} LitsParsed(w: string, u: string)
    requires '*' !in w
    ensures Parse(w + u) == Lits(w, Parse(u))
  {
    if w == "" {
      assert w + u == u;
    } else {
      LitsParsed(w[1..], u);
      assert (w + u)[1..] == w[1..] + u;
    }
  }

  /** Expanding a line and then looking for bold finds the bold of the line itself. */
  lemma {:induction false} ExpandingKeepsTheCut(f: char -> string, s: string)
    requires IsTame(f)
    ensures Parse(Expand(f, s)) == ExpandLine(f, Parse(s))
    decreases |s|
  {
    if s != "" {
      MatchCommutes(f, s);
      MatchFits(s);
      if MatchAt(s).Some? {
        var n := MatchAt(s).value;
        ExpandedBold(f, s, n);
        ExpandingKeepsTheCut(f, s[n..]);
      } else {
        ExpandingKeepsTheCut(f, s[1..]);
        ExpandedLit(f, s[0], s[1..]);
        assert s == [s[0]] + s[1..];
      }
    }
  }

  lemma ExpandedLit(f: char -> string, c: char, t: string)
    requires IsTame(f) && MatchAt(Expand(f, [c] + t)).None?
    ensures Parse(Expand(f, [c] + t)) == Lits(f(c), Parse(Expand(f, t)))
  {
    TameAt(f, c);
    ExpandCons(f, c, t);
    if c == '*' {
      assert ("*" + Expand(f, t))[1..] == Expand(f, t);
      assert "*"[1..] == "";
    } else {
      if c == '\n' {
        assert '*' !in f(c);
      }
      LitsParsed(f(c), Expand(f, t));
    }
  }

  lemma ExpandedBold(f: char -> string, s: string, n: nat)
    requires IsTame(f) && MatchAt(s) == Some(n) && 5 <= n <= |s| && MatchAt(Expand(f, s)) == Some(|Expand(f, s[..n])|)
    ensures Parse(Expand(f, s)) == Bold(Expand(f, s[2..n - 2]), Parse(Expand(f, s[n..])))
  {
    var v := s[2..n - 2];
    MatchMarks(s, n);
    ExpandMark(f, v + "**");
    ExpandSplits(f, v, "**");
    ExpandMark(f, "");
    assert "**" + "" == "**";
    assert s == s[..n] + s[n..];
    ExpandSplits(f, s[..n], s[n..]);
    BoldParsed(Expand(f, v), Expand(f, s[n..]));
  }

  lemma MatchMarks(s: string, n: nat)
    requires MatchAt(s) == Some(n) && 5 <= n <= |s|
    ensures s[..n] == "**" + (s[2..n - 2] + "**")
  {
    assert s[0..] == s;
    MatchIsShortest(s, 0);
  }

  lemma BoldParsed(v: string, u: string)
    requires MatchAt("**" + (v + "**") + u) == Some(|v| + 4)
    ensures Parse("**" + (v + "**") + u) == Bold(v, Parse(u))
  {
    var x := "**" + (v + "**") + u;
    assert x[|v| + 4..] == u;
    assert x[2..|v| + 2] == v;
  }
}
