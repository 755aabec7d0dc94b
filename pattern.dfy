/** The text handling behind parse_command (main.py:264-296): lower-casing,
    substring tests, `str.strip`, the expense regular expression searched with
    `re.search`, the name list split with `re.split`, and `float` on the
    matched amount.

    The regular expression is modelled by its backtracking search, written out
    on suffixes of the command: every function below takes the text not yet
    consumed and tries the alternatives in the order Python's engine does
    (greedy quantifiers longest first, lazy ones shortest first, an optional
    group first taken, then skipped), returning the first success. */
module Pattern {
  import opened Common

  /** `\s`, `\w`, `\d` and `.` (which excludes only the newline). */
  datatype CharClass = Space | Word | Digit | Dot

  predicate InClass(c: char, cls: CharClass)
  {
    match cls
    case Space => c == ' ' || '\t' <= c <= '\r' || '\U{1C}' <= c <= '\U{1F}'
    case Word => 'a' <= c <= 'z' || 'A' <= c <= 'Z' || '0' <= c <= '9' || c == '_'
    case Digit => '0' <= c <= '9'
    case Dot => c != '\n'
  }

  predicate IsSpace(c: char)
  {
    InClass(c, Space)
  }

  /** The length of the longest prefix of `t` whose characters are all in
      `cls`: what a greedy `\s+`, `\w+` or `\d+` consumes first. */
  function Run(t: string, cls: CharClass): (n: nat)
    ensures n <= |t|
    ensures forall k :: 0 <= k < n ==> InClass(t[k], cls)
    ensures n == |t| || !InClass(t[n], cls)
  {
    if t == [] || !InClass(t[0], cls) then 0 else 1 + Run(t[1..], cls)
  }

  predicate StartsWith(t: string, w: string)
  {
    |w| <= |t| && t[..|w|] == w
  }

  /** Where `$` matches: at the end, or just before a final newline. */
  predicate AtEnd(t: string)
  {
    t == [] || t == "\n"
  }

  /** What `.+` can capture: a non-empty run without a newline. */
  predicate Field(x: string)
  {
    |x| > 0 && forall k :: 0 <= k < |x| ==> x[k] != '\n'
  }

  /** None of the first `n` characters of `x` is a newline. */
  predicate NoBreak(x: string, n: int)
  {
    forall k :: 0 <= k < n && k < |x| ==> x[k] != '\n'
  }

  /** The groups `split_among` and `date`, each absent when its optional
      clause was skipped. */
  datatype Tail = Tail(splitAmong: Option<string>, date: Option<string>)

  predicate TailFields(tl: Tail)
  {
    (tl.splitAmong.Some? ==> Field(tl.splitAmong.value)) && (tl.date.Some? ==> Field(tl.date.value))
  }

  /** The named groups of a match of the expense pattern. */
  datatype Groups = Groups(paidBy: string, amount: string, description: string,
                           splitAmong: Option<string>, date: Option<string>)

  /** `\d+(\.\d+)?`: digits, optionally a point and more digits. */
  predicate IsAmount(a: string)
  {
    var d := Run(a, Digit);
    d > 0 && (d == |a| || (a[d] == '.' && d + 1 < |a| && Run(a[d + 1..], Digit) == |a| - d - 1))
  }

  /** `(?P<date>.+)$` after the whitespace: the greedy `.+` first takes the
      `e` characters up to the next newline, then gives them back one at a
      time until `$` matches. */
  function DateEnd(v: string, e: nat): (r: Option<string>)
    requires e <= |v|
    requires NoBreak(v, e)
    ensures r.Some? ==> Field(r.value) && |r.value| <= e && r.value == v[..|r.value|] && AtEnd(v[|r.value|..])
  {
    if e == 0 then None
    else if AtEnd(v[e..]) then Some(v[..e])
    else DateEnd(v, e - 1)
  }

  /** `\s+(?P<date>.+)$` where `u` starts with `k` whitespace characters:
      the greedy `\s+` tries all `k` first, then fewer. */
  function DateField(u: string, k: nat): (r: Option<string>)
    requires k <= |u|
    ensures r.Some? ==> Field(r.value)
  {
    if k == 0 then None
    else
      var v := u[k..];
      match DateEnd(v, Run(v, Dot))
      case Some(d) => Some(d)
      case None => DateField(u, k - 1)
  }

  /** `\s+on\s+(?P<date>.+)$` at the start of `t`. */
  function DateAt(t: string): (r: Option<string>)
    ensures r.Some? ==> Field(r.value)
  {
    var n := Run(t, Space);
    if n == 0 || !StartsWith(t[n..], "on") then None
    else
      var u := t[n + 2..];
      DateField(u, Run(u, Space))
  }

  /** The lazy `(?P<split_among>.+?)` over `x`, trying the first `e`
      characters, then one more, and so on; after each candidate the optional
      date clause is tried first, then `$`. */
  function SplitEnd(x: string, e: nat): (r: Option<Tail>)
    requires 1 <= e
    requires NoBreak(x, e - 1)
    ensures r.Some? ==> r.value.splitAmong.Some? && TailFields(r.value)
    decreases |x| - e
  {
    if e > |x| || x[e - 1] == '\n' then None
    else
      match DateAt(x[e..])
      case Some(d) => Some(Tail(Some(x[..e]), Some(d)))
      case None =>
        if AtEnd(x[e..]) then Some(Tail(Some(x[..e]), None)) else SplitEnd(x, e + 1)
  }

  /** `\s+(?P<split_among>.+?)...` where `w` starts with `k` whitespace
      characters, the greedy `\s+` trying all `k` first. */
  function SplitField(w: string, k: nat): (r: Option<Tail>)
    requires k <= |w|
    ensures r.Some? ==> r.value.splitAmong.Some? && TailFields(r.value)
  {
    if k == 0 then None
    else
      match SplitEnd(w[k..], 1)
      case Some(tl) => Some(tl)
      case None => SplitField(w, k - 1)
  }

  /** The length of the keyword of `(?:between|among|with)` at the start of
      `v`, or 0 when none of them is there. */
  function SplitKeyword(v: string): nat
  {
    if StartsWith(v, "between") then 7
    else if StartsWith(v, "among") then 5
    else if StartsWith(v, "with") then 4
    else 0
  }

  /** `\s+split\s+(?:between|among|with)\s+(?P<split_among>.+?)(\s+on\s+(?P<date>.+))?$`
      at the start of `t`. */
  function SplitAt(t: string): (r: Option<Tail>)
    ensures r.Some? ==> r.value.splitAmong.Some? && TailFields(r.value)
  {
    var n := Run(t, Space);
    if n == 0 || !StartsWith(t[n..], "split") then None
    else
      var u := t[n + 5..];
      var m := Run(u, Space);
      var l := SplitKeyword(u[m..]);
      if m == 0 || l == 0 then None
      else
        var w := u[m + l..];
        SplitField(w, Run(w, Space))
  }

  /** Everything after the description: the split clause with its optional
      date clause, else the date clause alone, else nothing; then `$`. */
  function TailAt(t: string): (r: Option<Tail>)
    ensures r.Some? ==> TailFields(r.value)
  {
    match SplitAt(t)
    case Some(tl) => Some(tl)
    case None =>
      match DateAt(t)
      case Some(d) => Some(Tail(None, Some(d)))
      case None => if AtEnd(t) then Some(Tail(None, None)) else None
  }

  /** The description together with the groups that follow it. */
  datatype Rest = Rest(description: string, tail: Tail)

  /** The lazy `(?P<description>.+?)` over `x`: the first `e` characters,
      then one more, and so on, until what follows matches TailAt. */
  function DescEnd(x: string, e: nat): (r: Option<Rest>)
    requires 1 <= e
    requires NoBreak(x, e - 1)
    ensures r.Some? ==> Field(r.value.description) && TailFields(r.value.tail)
    decreases |x| - e
  {
    if e > |x| || x[e - 1] == '\n' then None
    else
      match TailAt(x[e..])
      case Some(tl) => Some(Rest(x[..e], tl))
      case None => DescEnd(x, e + 1)
  }

  /** `\s+(?P<description>.+?)...` where `w` starts with `k` whitespace
      characters, the greedy `\s+` trying all `k` first. */
  function DescField(w: string, k: nat): (r: Option<Rest>)
    requires k <= |w|
    ensures r.Some? ==> Field(r.value.description) && TailFields(r.value.tail)
  {
    if k == 0 then None
    else
      match DescEnd(w[k..], 1)
      case Some(rest) => Some(rest)
      case None => DescField(w, k - 1)
  }

  /** The length of `\d+(\.\d+)?` at the start of `t`, or 0 when there are
      no digits there. The point and the digits after it are taken when
      present; leaving them out could not help the rest of the pattern, which
      needs whitespace next. */
  function AmountAt(t: string): (a: nat)
    ensures a <= |t|
    ensures a > 0 ==> IsAmount(t[..a])
  {
    var d := Run(t, Digit);
    if d == 0 then 0
    else if d < |t| && t[d] == '.' && Run(t[d + 1..], Digit) > 0 then
      var f := Run(t[d + 1..], Digit);
      RunIs(t[..d + 1 + f], Digit, d);
      assert t[..d + 1 + f][d + 1..] == t[d + 1..][..f];
      RunIs(t[d + 1..][..f], Digit, f);
      d + 1 + f
    else
      RunIs(t[..d], Digit, d);
      d
  }

  /** A run is determined by where the class first fails. */
  lemma RunIs(t: string, cls: CharClass, n: nat)
    requires n <= |t|
    requires forall k :: 0 <= k < n ==> InClass(t[k], cls)
    requires n == |t| || !InClass(t[n], cls)
    ensures Run(t, cls) == n
  {
  }

  /** The part of the pattern before the description. */
  datatype Head = Head(paidBy: string, amount: string, rest: string)

  /** `t` starts with `n` whitespace characters (at least one), then `w`. */
  predicate SpacesThen(t: string, n: int, w: string)
  {
    0 < n && n + |w| <= |t| && (forall k :: 0 <= k < n ==> IsSpace(t[k])) && t[n..n + |w|] == w
  }

  /** `\s+<w>` at the start of `t`, with what follows it. The greedy `\s+`
      can only match the whole run, since a letter follows it. */
  function KeywordAt(t: string, w: string): (r: Option<string>)
    requires |w| > 0 && !IsSpace(w[0])
    ensures r.Some? ==> |r.value| < |t|
    ensures r.Some? ==> exists n :: SpacesThen(t, n, w) && r.value == t[n + |w|..]
  {
    var n := Run(t, Space);
    if n == 0 || !StartsWith(t[n..], w) then None
    else
      assert t[n..][..|w|] == t[n..n + |w|];
      assert SpacesThen(t, n, w);
      Some(t[n + |w|..])
  }

  /** `(?P<amount>\d+(\.\d+)?)\s+for` at the start of `t`, with what follows. */
  function AmountFor(t: string): (r: Option<(string, string)>)
    ensures r.Some? ==> IsAmount(r.value.0)
  {
    var a := AmountAt(t);
    if a == 0 then None
    else
      match KeywordAt(t[a..], "for")
      case None => None
      case Some(rest) => Some((t[..a], rest))
  }

  /** `(?P<paid_by>\w+)\s+paid\s+(?P<amount>\d+(\.\d+)?)\s+for` at the start
      of `t`, with what follows it. The greedy `\w+` and the `\s+` after
      "paid" can only match whole runs, since each is followed by a character
      outside its class. */
  function HeadAt(t: string): (r: Option<Head>)
    ensures r.Some? ==> |r.value.paidBy| > 0 && (forall k :: 0 <= k < |r.value.paidBy| ==> InClass(r.value.paidBy[k], Word))
    ensures r.Some? ==> IsAmount(r.value.amount)
  {
    var w := Run(t, Word);
    if w == 0 then None
    else
      match KeywordAt(t[w..], "paid")
      case None => None
      case Some(t2) =>
        var n := Run(t2, Space);
        if n == 0 then None
        else
          match AmountFor(t2[n..])
          case None => None
          case Some(ar) => Some(Head(t[..w], ar.0, ar.1))
  }

  /** The whole expense pattern anchored at the start of `t`. */
  function MatchAt(t: string): (r: Option<Groups>)
    ensures r.Some? ==> |r.value.paidBy| > 0 && (forall k :: 0 <= k < |r.value.paidBy| ==> InClass(r.value.paidBy[k], Word))
    ensures r.Some? ==> IsAmount(r.value.amount)
    ensures r.Some? ==> Field(r.value.description) && TailFields(Tail(r.value.splitAmong, r.value.date))
  {
    match HeadAt(t)
    case None => None
    case Some(h) =>
      match DescField(h.rest, Run(h.rest, Space))
      case None => None
      case Some(rest) => Some(Groups(h.paidBy, h.amount, rest.description, rest.tail.splitAmong, rest.tail.date))
  }

  /** `re.search`: the match at the leftmost position where there is one. */
  function Search(s: string): (r: Option<Groups>)
    ensures r.Some? ==> |r.value.paidBy| > 0 && (forall k :: 0 <= k < |r.value.paidBy| ==> InClass(r.value.paidBy[k], Word))
    ensures r.Some? ==> IsAmount(r.value.amount)
    ensures r.Some? ==> Field(r.value.description) && TailFields(Tail(r.value.splitAmong, r.value.date))
  {
    match MatchAt(s)
    case Some(g) => Some(g)
    case None => if s == [] then None else Search(s[1..])
  }

  /** `w` occurs in `s` at position `i`. */
  predicate OccursAt(s: string, w: string, i: int)
  {
    0 <= i && i + |w| <= |s| && s[i..i + |w|] == w
  }

  /** `w` occurs in `s` (Python's `w in s`). */
  function Contains(s: string, w: string): (b: bool)
    ensures b <==> exists i :: OccursAt(s, w, i)
  {
    if |s| < |w| then false
    else if s[..|w|] == w then
      assert OccursAt(s, w, 0);
      true
    else
      var b := Contains(s[1..], w);
      assert b ==> exists i :: OccursAt(s, w, i) by {
        if b {
          var i :| OccursAt(s[1..], w, i);
          assert s[1..][i..i + |w|] == s[i + 1..i + 1 + |w|];
          assert OccursAt(s, w, i + 1);
        }
      }
      assert (exists i :: OccursAt(s, w, i)) ==> b by {
        if exists i :: OccursAt(s, w, i) {
          var i :| OccursAt(s, w, i);
          assert i != 0;
          assert s[1..][i - 1..i - 1 + |w|] == s[i..i + |w|];
          assert OccursAt(s[1..], w, i - 1);
        }
      }
      b
  }

  /** An occurrence in a suffix is an occurrence in the whole. */
  lemma OccursShift(s: string, w: string, k: nat, i: int)
    requires k <= |s|
    requires OccursAt(s[k..], w, i)
    ensures OccursAt(s, w, k + i)
  {
    assert s[k..][i..i + |w|] == s[k + i..k + i + |w|];
  }

  /** A prefix of a suffix is an occurrence. */
  lemma StartsOccurs(s: string, w: string, k: nat)
    requires k <= |s| && StartsWith(s[k..], w)
    ensures OccursAt(s, w, k)
  {
    assert s[k..][..|w|] == s[k..k + |w|];
  }

  /** Text the expense pattern matches at its start contains "paid". */
  lemma HeadNeedsPaid(t: string)
    requires HeadAt(t).Some?
    ensures exists i :: OccursAt(t, "paid", i)
  {
    var w := Run(t, Word);
    var t1 := t[w..];
    var n1 := Run(t1, Space);
    assert KeywordAt(t1, "paid").Some?;
    StartsOccurs(t1, "paid", n1);
    OccursShift(t, "paid", w, n1);
  }

  /** A command the pattern matches anywhere contains the word "paid": a
      command without it is never taken for an expense. */
  lemma {:induction false} SearchNeedsPaid(s: string)
    requires Search(s).Some?
    ensures Contains(s, "paid")
  {
    if MatchAt(s).Some? {
      HeadNeedsPaid(s);
    } else {
      SearchNeedsPaid(s[1..]);
      var i :| OccursAt(s[1..], "paid", i);
      OccursShift(s, "paid", 1, i);
    }
  }

  /** ASCII lower case of one character. */
  function LowerChar(c: char): char
  {
    if 'A' <= c <= 'Z' then (c as int + 32) as char else c
  }

  /** `str.lower()` over ASCII: the same length, no capital letter left, and
      only capital letters changed. */
  function Lower(s: string): (r: string)
    ensures |r| == |s|
    ensures forall i :: 0 <= i < |r| ==> !('A' <= r[i] <= 'Z')
    ensures forall i :: 0 <= i < |r| ==> r[i] == s[i] || 'A' <= s[i] <= 'Z'
  {
    seq(|s|, i requires 0 <= i < |s| => LowerChar(s[i]))
  }

  /** Text without capital letters is its own lower case; in particular
      lower-casing twice changes nothing more. */
  lemma LowerFixed(s: string)
    requires forall i :: 0 <= i < |s| ==> !('A' <= s[i] <= 'Z')
    ensures Lower(s) == s
  {
  }

  lemma LowerIdempotent(s: string)
    ensures Lower(Lower(s)) == Lower(s)
  {
    LowerFixed(Lower(s));
  }

  /** Leading whitespace removed. */
  function StripStart(s: string): (r: string)
    ensures |r| <= |s|
    ensures r == [] || !IsSpace(r[0])
    ensures forall k :: 0 <= k < |s| - |r| ==> IsSpace(s[k])
  {
    if s != [] && IsSpace(s[0]) then StripStart(s[1..]) else s
  }

  /** Trailing whitespace removed. */
  function StripEnd(s: string): (r: string)
    ensures |r| <= |s|
    ensures r == [] || !IsSpace(r[|r| - 1])
    ensures forall k :: |r| <= k < |s| ==> IsSpace(s[k])
  {
    if s != [] && IsSpace(s[|s| - 1]) then StripEnd(s[..|s| - 1]) else s
  }

  /** `str.strip()`. */
  function Strip(s: string): string
  {
    StripEnd(StripStart(s))
  }

  /** What `StripStart` leaves is a suffix of its argument. */
  lemma {:induction false} StripStartSuffix(s: string)
    ensures StripStart(s) == s[|s| - |StripStart(s)|..]
  {
    if s != [] && IsSpace(s[0]) {
      StripStartSuffix(s[1..]);
    }
  }

  /** What `StripEnd` leaves is a prefix of its argument. */
  lemma {:induction false} StripEndPrefix(s: string)
    ensures StripEnd(s) == s[..|StripEnd(s)|]
  {
    if s != [] && IsSpace(s[|s| - 1]) {
      StripEndPrefix(s[..|s| - 1]);
    }
  }

  /** `Strip(s)` is the stretch of `s` left once its leading `d` characters
      and its trailing characters, all whitespace, are cut off; it neither
      starts nor ends with whitespace. */
  lemma StripSpec(s: string)
    ensures var r, d := Strip(s), |s| - |StripStart(s)|;
            && d + |r| <= |s| && r == s[d..d + |r|]
            && (r == [] || (!IsSpace(r[0]) && !IsSpace(r[|r| - 1])))
            && (forall k :: 0 <= k < d ==> IsSpace(s[k]))
            && (forall k :: d + |r| <= k < |s| ==> IsSpace(s[k]))
  {
    var u := StripStart(s);
    var r := Strip(s);
    var d := |s| - |u|;
    StripStartSuffix(s);
    StripEndPrefix(u);
    assert r == u[..|r|];
    assert u == s[d..];
    assert r == s[d..d + |r|];
    forall k | d + |r| <= k < |s|
      ensures IsSpace(s[k])
    {
      assert s[k] == u[k - d];
    }
  }

  /** Text that neither starts nor ends with whitespace is left as it is. */
  lemma StripTrimmed(s: string)
    requires s == [] || (!IsSpace(s[0]) && !IsSpace(s[|s| - 1]))
    ensures Strip(s) == s
  {
  }

  /** The length of the separator `,\s*|(?:\s+and\s+)` at the start of `u`,
      or 0 when there is none there. */
  function SeparatorAt(u: string): (l: nat)
    ensures l <= |u|
    ensures l > 0 ==> u[0] == ',' || IsSpace(u[0])
  {
    if u != [] && u[0] == ',' then 1 + Run(u[1..], Space)
    else
      var n := Run(u, Space);
      if n > 0 && StartsWith(u[n..], "and") && Run(u[n + 3..], Space) > 0 then n + 3 + Run(u[n + 3..], Space)
      else 0
  }

  /** `re.split` with that separator, scanning `t` from `q` on, the piece in
      progress being `t[..q]`. Every comma belongs to a separator, so no
      piece contains one. */
  function PiecesFrom(t: string, q: nat): (r: seq<string>)
    requires q <= |t|
    requires forall k :: 0 <= k < q ==> t[k] != ','
    ensures |r| >= 1
    ensures forall i, k :: 0 <= i < |r| && 0 <= k < |r[i]| ==> r[i][k] != ','
    decreases |t|, |t| - q
  {
    if q == |t| then [t]
    else
      var l := SeparatorAt(t[q..]);
      if l > 0 then [t[..q]] + PiecesFrom(t[q + l..], 0)
      else PiecesFrom(t, q + 1)
  }

  function Pieces(t: string): (r: seq<string>)
    ensures |r| >= 1
    ensures forall i, k :: 0 <= i < |r| && 0 <= k < |r[i]| ==> r[i][k] != ','
  {
    PiecesFrom(t, 0)
  }

  /** The value of one decimal digit. */
  function DigitValue(c: char): (v: nat)
    ensures v <= 9
  {
    if '0' <= c <= '9' then c as int - '0' as int else 0
  }

  /** The value of a string of decimal digits. */
  function Whole(ds: string): nat
  {
    if ds == [] then 0 else 10 * Whole(ds[..|ds| - 1]) + DigitValue(ds[|ds| - 1])
  }

  /** The value of the digits after a decimal point. */
  function Fraction(ds: string): (r: real)
    ensures 0.0 <= r < 1.0
  {
    if ds == [] then 0.0 else (DigitValue(ds[0]) as real + Fraction(ds[1..])) / 10.0
  }

  /** `float` of a matched amount, taken exactly. */
  function Decimal(a: string): (r: real)
    ensures r >= 0.0
  {
    var d := Run(a, Digit);
    if d < |a| && a[d] == '.' then Whole(a[..d]) as real + Fraction(a[d + 1..])
    else Whole(a) as real
  }
}
