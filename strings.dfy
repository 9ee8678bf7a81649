/** Text helpers that mirror the JavaScript built-ins the merge controller
    relies on: decimal rendering of an index inside a template literal,
    `Array.prototype.join`, and the bracketed stream labels of a filter graph.
    A splitter and a label parser are the inverses used to state what the
    rendered strings contain. */
module Strings {

  datatype Option<+T> = None | Some(value: T)

  predicate IsDigit(c: char) {
    '0' <= c <= '9'
  }

  predicate AllDigits(s: string) {
    forall i :: 0 <= i < |s| ==> IsDigit(s[i])
  }

  function DigitChar(d: nat): (c: char)
    requires d < 10
    ensures IsDigit(c)
  {
    (d + '0' as int) as char
  }

  function DigitValue(c: char): (d: nat)
    requires IsDigit(c)
    ensures d < 10
  {
    c as int - '0' as int
  }

  /** The decimal text of `n`, as `${n}` renders a non-negative integer. */
  function NatToString(n: nat): (s: string)
    ensures |s| >= 1
    ensures AllDigits(s)
    ensures s[0] == '0' ==> n == 0
  {
    if n < 10 then [DigitChar(n)] else NatToString(n / 10) + [DigitChar(n % 10)]
  }

  /** Reads a string of decimal digits back as a number. */
  function ParseDecimal(s: string): nat
    requires AllDigits(s)
  {
    if |s| == 0 then 0 else ParseDecimal(s[..|s| - 1]) * 10 + DigitValue(s[|s| - 1])
  }

  /** Reading the rendered decimal text gives the number back. */
  lemma {:induction false} DecimalRoundTrip(n: nat)
    ensures ParseDecimal(NatToString(n)) == n
  {
    if n >= 10 {
      var s := NatToString(n / 10);
      DecimalRoundTrip(n / 10);
      assert NatToString(n)[..|s|] == s;
    }
  }

  /** Distinct numbers render as distinct texts. */
  lemma NatToStringInjective(m: nat, n: nat)
    ensures NatToString(m) == NatToString(n) <==> m == n
  {
    DecimalRoundTrip(m);
    DecimalRoundTrip(n);
  }

  /** `parts.join(sep)`: the parts in order with `sep` between neighbours. */
  function Join(parts: seq<string>, sep: string): string
  {
    if |parts| == 0 then ""
    else if |parts| == 1 then parts[0]
    else Join(parts[..|parts| - 1], sep) + sep + parts[|parts| - 1]
  }

  lemma JoinAppend(parts: seq<string>, p: string, sep: string)
    requires |parts| >= 1
    ensures Join(parts + [p], sep) == Join(parts, sep) + sep + p
  {
    assert (parts + [p])[..|parts|] == parts;
  }

  /** Regrouping a four-part concatenation. Stated over variables, so that a
      proof about concrete text uses it without unfolding the literals. */
  lemma ConcatAssoc(a: string, b: string, c: string, d: string)
    ensures a + b + c + d == a + b + (c + d)
  {
  }

  /** Regrouping a five-part concatenation. */
  lemma ConcatAssoc5(a: string, b: string, c: string, d: string, e: string)
    ensures a + b + (c + d + e) == a + b + c + d + e
  {
  }

  /** Joining a last part that is itself `v + sep + a` is joining `v` and `a`
      as two separate parts. */
  lemma JoinLastSplit(parts: seq<string>, ws: seq<string>, s: string, v: string, a: string, sep: string)
    requires |parts| >= 1 && |ws| >= 1
    requires Join(parts, sep) == Join(ws, sep)
    requires s == v + sep + a
    ensures Join(parts + [s], sep) == Join(ws + [v, a], sep)
  {
    var j := Join(ws, sep);
    calc {
      Join(parts + [s], sep);
      { JoinAppend(parts, s, sep); }
      j + sep + (v + sep + a);
      { ConcatAssoc5(j, sep, v, sep, a); }
      (j + sep + v) + sep + a;
      { JoinAppend(ws, v, sep); }
      Join(ws + [v], sep) + sep + a;
      { JoinAppend(ws + [v], a, sep); }
      Join(ws + [v] + [a], sep);
      { assert ws + [v] + [a] == ws + [v, a]; }
      Join(ws + [v, a], sep);
    }
  }

  /** A character that occurs neither in the separator nor in any part does
      not occur in the joined text. */
  lemma {:induction false} JoinAvoids(parts: seq<string>, sep: string, c: char)
    requires c !in sep
    requires forall i :: 0 <= i < |parts| ==> c !in parts[i]
    ensures c !in Join(parts, sep)
  {
    if |parts| >= 2 {
      JoinAvoids(parts[..|parts| - 1], sep, c);
    }
  }

  /** Cuts `s` at every occurrence of `sep`, like `s.split(sep)` for a
      one-character separator: there is always at least one piece. */
  function Split(s: string, sep: char): (r: seq<string>)
    ensures |r| >= 1
  {
    if |s| == 0 then [""]
    else if s[0] == sep then [""] + Split(s[1..], sep)
    else
      var rest := Split(s[1..], sep);
      [[s[0]] + rest[0]] + rest[1..]
  }

  lemma {:induction false} SplitWithout(p: string, sep: char)
    requires sep !in p
    ensures Split(p, sep) == [p]
  {
    if |p| > 0 {
      assert p[0] in p;
      SplitWithout(p[1..], sep);
      assert [p[0]] + p[1..] == p;
    }
  }

  /** Appending a separator and a separator-free piece adds exactly that piece. */
  lemma {:induction false} SplitAppend(x: string, sep: char, p: string)
    requires sep !in p
    ensures Split(x + [sep] + p, sep) == Split(x, sep) + [p]
  {
    if |x| == 0 {
      assert x + [sep] + p == [sep] + p;
      assert ([sep] + p)[1..] == p;
      SplitWithout(p, sep);
    } else {
      assert (x + [sep] + p)[0] == x[0];
      assert (x + [sep] + p)[1..] == x[1..] + [sep] + p;
      SplitAppend(x[1..], sep, p);
    }
  }

  /** Splitting the joined text at the separator gives the parts back, as long
      as no part contains the separator. */
  lemma {:induction false} SplitJoin(parts: seq<string>, sep: char)
    requires |parts| >= 1
    requires forall i :: 0 <= i < |parts| ==> sep !in parts[i]
    ensures Split(Join(parts, [sep]), sep) == parts
  {
    if |parts| == 1 {
      SplitWithout(parts[0], sep);
    } else {
      var init := parts[..|parts| - 1];
      SplitJoin(init, sep);
      SplitAppend(Join(init, [sep]), sep, parts[|parts| - 1]);
      assert init + [parts[|parts| - 1]] == parts;
    }
  }

  /** The label list `[l0][l1]...` of a filter-graph link. */
  function Bracketed(labels: seq<string>): string
  {
    if |labels| == 0 then "" else Bracketed(labels[..|labels| - 1]) + "[" + labels[|labels| - 1] + "]"
  }

  predicate LabelText(l: string) {
    '[' !in l && ']' !in l
  }

  /** The position of the last `c` in `s`, if any. */
  function LastIndexOf(s: string, c: char): (r: Option<nat>)
    ensures r.Some? ==> r.value < |s| && s[r.value] == c
    ensures r.Some? ==> c !in s[r.value + 1..]
    ensures r.None? ==> c !in s
  {
    if |s| == 0 then None
    else if s[|s| - 1] == c then Some(|s| - 1)
    else
      var r := LastIndexOf(s[..|s| - 1], c);
      assert r.Some? ==> s[r.value + 1..] == s[..|s| - 1][r.value + 1..] + [s[|s| - 1]];
      r
  }

  /** Reads a label list `[l0][l1]...` back; `None` when the text is not one. */
  function ParseLabels(s: string): Option<seq<string>>
    decreases |s|
  {
    if |s| == 0 then Some([])
    else if s[|s| - 1] != ']' then None
    else
      var body := s[..|s| - 1];
      match LastIndexOf(body, '[')
      case None => None
      case Some(k) =>
        var name := body[k + 1..];
        if ']' in name then None
        else match ParseLabels(body[..k])
          case None => None
          case Some(init) => Some(init + [name])
  }

  /** Parsing a rendered label list gives the labels back. */
  lemma {:induction false} ParseBracketed(labels: seq<string>)
    requires forall i :: 0 <= i < |labels| ==> LabelText(labels[i])
    ensures ParseLabels(Bracketed(labels)) == Some(labels)
  {
    if |labels| > 0 {
      var init := labels[..|labels| - 1];
      var l := labels[|labels| - 1];
      var b := Bracketed(init);
      assert Bracketed(labels) == b + "[" + l + "]";
      ParseBracketed(init);
      ParseStep(b, l);
      assert init + [l] == labels;
    }
  }

  /** One bracketed label more at the end is one label more in the parse. */
  lemma ParseStep(b: string, l: string)
    requires LabelText(l)
    ensures ParseLabels(b + "[" + l + "]")
         == match ParseLabels(b) case None => None case Some(init) => Some(init + [l])
  {
    var s := b + "[" + l + "]";
    var body := s[..|s| - 1];
    assert s[|s| - 1] == ']';
    assert body == b + "[" + l;
    LastAfter(b, l);
    assert body[|b| + 1..] == l;
    assert body[..|b|] == b;
  }

  lemma {:induction false} LastAfter(b: string, l: string)
    requires '[' !in l
    ensures LastIndexOf(b + "[" + l, '[') == Some(|b|)
    decreases |l|
  {
    var t := b + "[" + l;
    if |l| > 0 {
      var li := l[..|l| - 1];
      assert t[..|t| - 1] == b + "[" + li;
      assert t[|t| - 1] == l[|l| - 1];
      LastAfter(b, li);
    }
  }

  /** Appending a rendered pair of labels to text that renders a label list
      renders the extended list. */
  lemma JoinBracketedStep(pieces: seq<string>, labels: seq<string>, p: string, v: string, a: string)
    requires Join(pieces, "") == Bracketed(labels)
    requires p == Bracketed([v, a])
    ensures Join(pieces + [p], "") == Bracketed(labels + [v, a])
  {
    BracketedAppend(labels, [v, a]);
    if |pieces| == 0 {
      assert pieces + [p] == [p];
      assert Bracketed(labels) == "";
      assert Bracketed(labels) + Bracketed([v, a]) == Bracketed([v, a]);
    } else {
      JoinAppend(pieces, p, "");
      assert Join(pieces, "") + "" + p == Join(pieces, "") + p;
    }
  }

  /** Concatenating two label lists renders as concatenated text. */
  lemma {:induction false} BracketedAppend(a: seq<string>, b: seq<string>)
    ensures Bracketed(a + b) == Bracketed(a) + Bracketed(b)
    decreases |b|
  {
    if |b| == 0 {
      assert a + b == a;
    } else {
      var bi := b[..|b| - 1];
      BracketedAppend(a, bi);
      assert (a + b)[..|a + b| - 1] == a + bi;
    }
  }
}
