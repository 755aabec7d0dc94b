/** The inverse direction of the command parser: the commands that the help
    text of parse_command (main.py:324-333) teaches, written out from their
    parts, and the proofs that the expense pattern, the name-list split and
    the amount conversion read those parts back. */
module Phrases {
  import opened Common
  import opened Pattern

  /** One space, the word `w`, then `x`. */
  function Spaced(w: string, x: string): string
  {
    " " + w + x
  }

  /** How two names of a split list are separated: a comma or the word "and". */
  datatype Sep = Comma | And

  function SepText(s: Sep): string
  {
    match s
    case Comma => ", "
    case And => " and "
  }

  /** The separator after the first name: `seps[0]`, a comma once `seps` has run out. */
  function FirstSep(seps: seq<Sep>): Sep
  {
    if seps == [] then Comma else seps[0]
  }

  function LaterSeps(seps: seq<Sep>): seq<Sep>
  {
    if seps == [] then [] else seps[1..]
  }

  /** The names written as a list, `seps[i]` between `names[i]` and
      `names[i + 1]` and a comma wherever `seps` has run out; `Join(names, [])`
      is `", ".join(names)`, as the splitter prints a split list. */
  function Join(names: seq<string>, seps: seq<Sep>): string
  {
    if names == [] then ""
    else if |names| == 1 then names[0]
    else names[0] + (SepText(FirstSep(seps)) + Join(names[1..], LaterSeps(seps)))
  }

  /** The word after "split". */
  datatype Sharing = Between | Among | With

  function SharingText(kw: Sharing): string
  {
    match kw
    case Between => "between"
    case Among => "among"
    case With => "with"
  }

  /** Words with one space between each two. */
  function Sentence(words: seq<string>): string
  {
    if words == [] then ""
    else if |words| == 1 then words[0]
    else words[0] + (" " + Sentence(words[1..]))
  }

  /** A payer the pattern's `\w+` can capture. */
  predicate PayerName(p: string)
  {
    |p| > 0 && forall k :: 0 <= k < |p| ==> InClass(p[k], Word)
  }

  /** A word written without whitespace. */
  predicate Token(x: string)
  {
    |x| > 0 && forall k :: 0 <= k < |x| ==> !IsSpace(x[k])
  }

  /** A token that, after a space, does not start a date clause. */
  predicate Plain(m: string)
  {
    Token(m) && m != "on"
  }

  /** A name in a split list: a plain token without commas. */
  predicate ListName(n: string)
  {
    Plain(n) && forall k :: 0 <= k < |n| ==> n[k] != ','
  }

  predicate ListNames(names: seq<string>)
  {
    forall i :: 0 <= i < |names| ==> ListName(names[i])
  }

  /** A word of a description: a plain token other than "split", so that
      neither clause can start inside the description. */
  predicate DescWord(m: string)
  {
    Plain(m) && m != "split"
  }

  predicate DescWords(words: seq<string>)
  {
    |words| > 0 && forall i :: 0 <= i < |words| ==> DescWord(words[i])
  }

  /** A date as written: one line, not starting or ending with whitespace. */
  predicate DateLine(d: string)
  {
    && |d| > 0 && !IsSpace(d[0]) && !IsSpace(d[|d| - 1])
    && forall k :: 0 <= k < |d| ==> d[k] != '\n'
  }

  /** The parts of an expense command in the taught form. */
  datatype Parts = Parts(payer: string, amount: string, words: seq<string>, names: seq<string>,
                         seps: seq<Sep>, sharing: Sharing, date: Option<string>)

  /** Parts that the pattern reads back as written. */
  predicate Readable(p: Parts)
  {
    && PayerName(p.payer) && IsAmount(p.amount) && DescWords(p.words) && ListNames(p.names)
    && (p.date.Some? ==> DateLine(p.date.value))
  }

  /** `" on <date>"`, or nothing. */
  function DateText(date: Option<string>): string
  {
    if date.Some? then Spaced("on", Spaced(date.value, "")) else ""
  }

  /** `" split <keyword> <names>"` followed by the date clause, or the date
      clause alone when no names are given. */
  function SplitText(names: seq<string>, seps: seq<Sep>, kw: Sharing, date: Option<string>): string
  {
    if names == [] then DateText(date)
    else Spaced("split", Spaced(SharingText(kw), Spaced(Join(names, seps), DateText(date))))
  }

  /** `"<payer> paid <amount> for <description>[ split <keyword> <names>][ on <date>]"`. */
  function Phrase(p: Parts): string
  {
    p.payer + Spaced("paid", Spaced(p.amount, Spaced("for", Spaced(Sentence(p.words),
      SplitText(p.names, p.seps, p.sharing, p.date)))))
  }

  /** The groups the parts should be read back as. */
  function Written(p: Parts): Groups
  {
    Groups(p.payer, p.amount, Sentence(p.words), if p.names == [] then None else Some(Join(p.names, p.seps)), p.date)
  }

  lemma SpacedRun(w: string, x: string)
    requires |w| > 0 && !IsSpace(w[0])
    ensures Run(Spaced(w, x), Space) == 1
    ensures Spaced(w, x)[1..] == w + x
  {
    RunIs(Spaced(w, x), Space, 1);
    assert Spaced(w, x)[1..] == w + x;
  }

  lemma SpacedKeyword(w: string, x: string)
    requires |w| > 0 && !IsSpace(w[0])
    ensures KeywordAt(Spaced(w, x), w) == Some(x)
  {
    SpacedRun(w, x);
    var t := Spaced(w, x);
    assert t[1..][..|w|] == w;
    assert t[1 + |w|..] == x;
  }

  /** No clause and no `$` can start at a character other than whitespace. */
  lemma WordStartQuiet(u: string)
    requires u != [] && !IsSpace(u[0])
    ensures SplitAt(u) == None && DateAt(u) == None && !AtEnd(u) && TailAt(u) == None
  {
    RunIs(u, Space, 0);
  }

  /** The date clause yields its date, and is not a split clause. */
  lemma DateTextTail(date: Option<string>)
    requires date.Some? ==> DateLine(date.value)
    ensures DateAt(DateText(date)) == date
    ensures TailAt(DateText(date)) == Some(Tail(None, date))
  {
    var t := DateText(date);
    if date.Some? {
      var d := date.value;
      SpacedRun("on", Spaced(d, ""));
      assert t[1..][..2] == "on";
      assert t[1..][0] != "split"[0];
      var u := t[3..];
      assert u == Spaced(d, "");
      SpacedRun(d, "");
      assert u[1..] == d;
      RunIs(d, Dot, |d|);
      assert d[|d|..] == [];
      assert d[..|d|] == d;
    } else {
      RunIs(t, Space, 0);
    }
  }

  /** After one space, a date clause needs "on" and then more whitespace. */
  lemma NoDateAfter(t: string)
    requires Run(t, Space) == 1
    requires !StartsWith(t[1..], "on") || |t| == 3 || !IsSpace(t[3])
    ensures DateAt(t) == None
  {
    if StartsWith(t[1..], "on") && |t| > 3 {
      assert t[3..][0] == t[3];
      RunIs(t[3..], Space, 0);
    }
  }

  /** After a space, a plain token is not the keyword "on" of a date clause. */
  lemma SpaceThenName(m: string, y: string)
    requires Plain(m)
    requires y == [] || y[0] == ',' || y[0] == ' '
    ensures DateAt(Spaced(m, y)) == None && !AtEnd(Spaced(m, y))
  {
    var t := Spaced(m, y);
    SpacedRun(m, y);
    if |m| >= 3 {
      assert t[3] == m[2];
    } else if |m| == 2 {
      assert t[1..][..2] == m;
    } else {
      assert |t[1..]| < 2 || t[1..][1] == y[0];
    }
    NoDateAfter(t);
  }

  /** After one space, a split clause needs "split" and then more whitespace. */
  lemma NoSplitAfterRun(t: string)
    requires Run(t, Space) == 1
    requires !StartsWith(t[1..], "split") || |t| == 6 || !IsSpace(t[6])
    ensures SplitAt(t) == None
  {
    if StartsWith(t[1..], "split") && |t| > 6 {
      assert t[6..][0] == t[6];
      RunIs(t[6..], Space, 0);
    }
  }

  /** After a space, a description word is not the keyword "split" of a
      split clause. */
  lemma NoSplitAfter(m: string, y: string)
    requires DescWord(m)
    requires y == [] || y[0] == ' '
    ensures SplitAt(Spaced(m, y)) == None
  {
    var t := Spaced(m, y);
    SpacedRun(m, y);
    if |m| > 5 {
      assert t[6] == m[5];
    } else if |m| == 5 {
      assert t[1..][..5] == m;
    } else if y != [] {
      assert t[1..][|m|] == y[0];
    }
    NoSplitAfterRun(t);
  }

  /** After a space, a description word starts neither clause. */
  lemma SpaceThenWord(m: string, y: string)
    requires DescWord(m)
    requires y == [] || y[0] == ' '
    ensures TailAt(Spaced(m, y)) == None
  {
    SpaceThenName(m, y);
    NoSplitAfter(m, y);
  }

  /** Neither clause, nor the end, can start at a character other than
      whitespace. */
  lemma QuietAt(x: string, k: nat)
    requires k < |x| && !IsSpace(x[k])
    ensures SplitGoesOn(x, k) && TailAt(x[k..]) == None
  {
    assert x[k..][0] == x[k];
    WordStartQuiet(x[k..]);
  }

  /** What holds at a position of `z` holds at the same place in `w + z`. */
  lemma SplitGoesOnShift(x: string, w: string, z: string, k: nat)
    requires x == w + z && |w| <= k <= |x|
    requires SplitGoesOn(z, k - |w|)
    ensures SplitGoesOn(x, k)
  {
    assert x[k..] == z[k - |w|..];
  }

  /** Inside a separator followed by a list name no date clause and no `$`
      can start. */
  lemma SepQuiet(s: Sep, m: string, y: string, k: nat)
    requires ListName(m)
    requires y == [] || y[0] == ',' || y[0] == ' '
    requires k < |SepText(s)|
    ensures SplitGoesOn(SepText(s) + (m + y), k)
  {
    if s == Comma {
      CommaQuiet(m, y, k);
    } else {
      AndQuiet(m, y, k);
    }
  }

  lemma CommaQuiet(m: string, y: string, k: nat)
    requires ListName(m)
    requires y == [] || y[0] == ',' || y[0] == ' '
    requires k < 2
    ensures SplitGoesOn(", " + (m + y), k)
  {
    var z := ", " + (m + y);
    if k == 0 {
      QuietAt(z, 0);
    } else {
      assert z[1..] == Spaced(m, y);
      SpaceThenName(m, y);
    }
  }

  lemma AndQuiet(m: string, y: string, k: nat)
    requires ListName(m)
    requires y == [] || y[0] == ',' || y[0] == ' '
    requires k < 5
    ensures SplitGoesOn(" and " + (m + y), k)
  {
    var z := " and " + (m + y);
    if k == 0 {
      assert z[0..] == Spaced("and", " " + (m + y));
      SpaceThenName("and", " " + (m + y));
    } else if k < 4 {
      QuietAt(z, k);
    } else {
      assert z[4..] == Spaced(m, y);
      SpaceThenName(m, y);
    }
  }

  /** A joined list is non-empty, has no newline, and starts and ends with
      its names' first and last characters. */
  lemma {:induction false} JoinShape(names: seq<string>, seps: seq<Sep>)
    requires |names| > 0 && ListNames(names)
    ensures |Join(names, seps)| > 0 && Join(names, seps)[0] == names[0][0]
    ensures forall k :: 0 <= k < |Join(names, seps)| ==> Join(names, seps)[k] != '\n'
  {
    var n := names[0];
    var j := Join(names, seps);
    assert ListName(n);
    if |names| >= 2 {
      var sep := SepText(FirstSep(seps));
      var j' := Join(names[1..], LaterSeps(seps));
      assert ListNames(names[1..]) by {
        forall i | 0 <= i < |names[1..]| ensures ListName(names[1..][i]) { assert names[1..][i] == names[i + 1]; }
      }
      JoinShape(names[1..], LaterSeps(seps));
      assert j == n + (sep + j');
      forall k | 0 <= k < |j|
        ensures j[k] != '\n'
      {
        if k < |n| {
          assert j[k] == n[k];
        } else if k < |n| + |sep| {
          assert j[k] == sep[k - |n|];
        } else {
          assert j[k] == j'[k - |n| - |sep|];
        }
      }
    }
  }

  /** The text after the first name and its separator: the next name, then
      something that starts with a comma or a space, or nothing. */
  lemma JoinNext(names: seq<string>, seps: seq<Sep>, rest: string) returns (y: string)
    requires |names| > 0
    requires rest == [] || rest[0] == ' '
    ensures Join(names, seps) + rest == names[0] + y
    ensures y == [] || y[0] == ',' || y[0] == ' '
  {
    if |names| == 1 {
      y := rest;
    } else {
      var sep := SepText(FirstSep(seps));
      y := sep + Join(names[1..], LaterSeps(seps)) + rest;
      assert sep[0] == ',' || sep[0] == ' ';
    }
  }

  /** Inside a joined list no date clause and no `$` can start. */
  lemma {:induction false} JoinQuiet(names: seq<string>, seps: seq<Sep>, rest: string)
    requires |names| > 0 && ListNames(names)
    requires rest == [] || rest[0] == ' '
    ensures forall k :: 1 <= k < |Join(names, seps)| ==> SplitGoesOn(Join(names, seps) + rest, k)
  {
    var n := names[0];
    var j := Join(names, seps);
    var x := j + rest;
    assert ListName(n);
    if |names| == 1 {
      forall k | 1 <= k < |j|
        ensures SplitGoesOn(x, k)
      {
        QuietAt(x, k);
      }
    } else {
      var tail := names[1..];
      var later := LaterSeps(seps);
      var j' := Join(tail, later);
      var sep := SepText(FirstSep(seps));
      assert ListNames(tail) by {
        forall i | 0 <= i < |tail| ensures ListName(tail[i]) { assert tail[i] == names[i + 1]; }
      }
      JoinQuiet(tail, later, rest);
      JoinShape(tail, later);
      var m := tail[0];
      var y := JoinNext(tail, later, rest);
      var w := n + sep;
      assert x == w + (j' + rest);
      assert x == n + (sep + (m + y));
      forall k | 1 <= k < |j|
        ensures SplitGoesOn(x, k)
      {
        if k < |n| {
          assert x[k] == n[k];
          QuietAt(x, k);
        } else if k < |w| {
          SepQuiet(FirstSep(seps), m, y, k - |n|);
          SplitGoesOnShift(x, n, sep + (m + y), k);
        } else {
          if k == |w| {
            assert (j' + rest)[0] == m[0];
            QuietAt(j' + rest, 0);
          }
          SplitGoesOnShift(x, w, j' + rest, k);
        }
      }
    }
  }

  /** Neither a date clause nor `$` matches at position `k` of `x`, so the
      lazy split field does not stop there. */
  predicate SplitGoesOn(x: string, k: nat)
    requires k <= |x|
  {
    DateAt(x[k..]) == None && !AtEnd(x[k..])
  }

  lemma SplitEndStep(x: string, e: nat)
    requires 1 <= e < |x|
    requires NoBreak(x, e)
    requires SplitGoesOn(x, e)
    ensures SplitEnd(x, e) == SplitEnd(x, e + 1)
  {
  }

  /** A function that keeps its value from each argument to the next keeps
      it over a whole stretch. */
  lemma {:induction false} Chain<T>(f: nat -> T, e: nat, stop: nat)
    requires e <= stop
    requires forall k :: e <= k < stop ==> f(k) == f(k + 1)
    ensures f(e) == f(stop)
    decreases stop - e
  {
    if e < stop {
      Chain(f, e + 1, stop);
    }
  }

  /** SplitEnd wherever it is defined. */
  function SplitFrom(x: string, k: nat): Option<Tail>
  {
    if 1 <= k <= |x| && NoBreak(x, k - 1) then SplitEnd(x, k) else None
  }

  lemma SplitFromStep(x: string, k: nat, stop: nat)
    requires 1 <= k < stop <= |x|
    requires NoBreak(x, stop)
    requires SplitGoesOn(x, k)
    ensures SplitFrom(x, k) == SplitFrom(x, k + 1)
  {
    SplitEndStep(x, k);
  }

  /** The lazy split field moves past every position where neither a date
      clause nor `$` matches. */
  lemma SplitEndScan(x: string, stop: nat)
    requires 1 <= stop <= |x|
    requires NoBreak(x, stop)
    requires forall k :: 1 <= k < stop ==> SplitGoesOn(x, k)
    ensures SplitEnd(x, 1) == SplitEnd(x, stop)
  {
    forall k | 1 <= k < stop
      ensures SplitFrom(x, k) == SplitFrom(x, k + 1)
    {
      SplitFromStep(x, k, stop);
    }
    Chain(k => SplitFrom(x, k), 1, stop);
  }

  /** The split keyword is read whole. */
  lemma SharingKeyword(kw: Sharing, w: string)
    ensures SplitKeyword(SharingText(kw) + w) == |SharingText(kw)|
  {
    var k := SharingText(kw);
    var v := k + w;
    assert v[..|k|] == k;
    assert v[0] == k[0];
  }

  /** The keywords of the split clause. */
  lemma SplitKeywords(kw: Sharing, w: string)
    requires w != [] && w[0] == ' '
    ensures SplitAt(Spaced("split", Spaced(SharingText(kw), w))) == SplitField(w, Run(w, Space))
  {
    var k := SharingText(kw);
    var u := Spaced(k, w);
    var t := Spaced("split", u);
    SpacedKeyword("split", u);
    assert KeywordAt(t, "split") == Some(u);
    SpacedRun(k, w);
    SharingKeyword(kw, w);
    assert SplitKeyword(u[1..]) == |k|;
    assert u[1 + |k|..] == w;
  }

  /** The lazy split field stops right after the last name. */
  lemma NamesEnd(names: seq<string>, seps: seq<Sep>, date: Option<string>)
    requires |names| > 0 && ListNames(names)
    requires date.Some? ==> DateLine(date.value)
    ensures SplitEnd(Join(names, seps) + DateText(date), 1) == Some(Tail(Some(Join(names, seps)), date))
  {
    var j := Join(names, seps);
    var dp := DateText(date);
    var x := j + dp;
    DateTextTail(date);
    JoinShape(names, seps);
    JoinQuiet(names, seps, dp);
    SplitEndScan(x, |j|);
    assert x[..|j|] == j;
    assert x[|j|..] == dp;
  }

  /** The split clause yields the joined names and the date. */
  lemma SplitTextTail(names: seq<string>, seps: seq<Sep>, kw: Sharing, date: Option<string>)
    requires ListNames(names)
    requires date.Some? ==> DateLine(date.value)
    ensures TailAt(SplitText(names, seps, kw, date))
            == Some(Tail(if names == [] then None else Some(Join(names, seps)), date))
  {
    if names == [] {
      DateTextTail(date);
    } else {
      var j := Join(names, seps);
      var w := Spaced(j, DateText(date));
      JoinShape(names, seps);
      SpacedRun(j, DateText(date));
      SplitKeywords(kw, w);
      NamesEnd(names, seps, date);
    }
  }

  /** The amount pattern takes the whole amount when a space follows it. */
  lemma AmountAtWhole(a: string, rest: string)
    requires IsAmount(a)
    requires rest != [] && rest[0] == ' '
    ensures AmountAt(a + rest) == |a|
  {
    var t := a + rest;
    var d := Run(a, Digit);
    RunIs(t, Digit, d);
    if d < |a| {
      var f := |a| - d - 1;
      assert t[d + 1..] == a[d + 1..] + rest;
      RunIs(t[d + 1..], Digit, f);
    }
  }

  /** The amount and the keyword "for" after it. */
  lemma AmountForWhole(amount: string, d: string)
    requires IsAmount(amount)
    ensures AmountFor(amount + Spaced("for", d)) == Some((amount, d))
  {
    var c := Spaced("for", d);
    var t := amount + c;
    AmountAtWhole(amount, c);
    assert t[..|amount|] == amount;
    assert t[|amount|..] == c;
    SpacedKeyword("for", d);
  }

  /** The part of the pattern before the description. */
  lemma PhraseHead(payer: string, amount: string, d: string)
    requires PayerName(payer) && IsAmount(amount)
    ensures HeadAt(payer + Spaced("paid", Spaced(amount, Spaced("for", d)))) == Some(Head(payer, amount, d))
  {
    var c := Spaced("for", d);
    var b := Spaced(amount, c);
    var a := Spaced("paid", b);
    var s := payer + a;
    RunIs(s, Word, |payer|);
    assert s[|payer|..] == a;
    assert s[..|payer|] == payer;
    SpacedKeyword("paid", b);
    assert KeywordAt(s[Run(s, Word)..], "paid") == Some(b);
    SpacedRun(amount, c);
    AmountForWhole(amount, d);
    assert AmountFor(b[Run(b, Space)..]) == Some((amount, d));
  }

  /** A sentence is non-empty, has no newline, and neither starts nor ends
      with whitespace. */
  lemma {:induction false} SentenceShape(words: seq<string>)
    requires DescWords(words)
    ensures |Sentence(words)| > 0 && Sentence(words)[0] == words[0][0]
    ensures !IsSpace(Sentence(words)[|Sentence(words)| - 1])
    ensures forall k :: 0 <= k < |Sentence(words)| ==> Sentence(words)[k] != '\n'
  {
    var w := words[0];
    var s := Sentence(words);
    assert DescWord(w);
    if |words| >= 2 {
      var s' := Sentence(words[1..]);
      assert DescWords(words[1..]) by {
        forall i | 0 <= i < |words[1..]| ensures DescWord(words[1..][i]) { assert words[1..][i] == words[i + 1]; }
      }
      SentenceShape(words[1..]);
      assert s == w + (" " + s');
      assert s[|s| - 1] == s'[|s'| - 1];
      forall k | 0 <= k < |s|
        ensures s[k] != '\n'
      {
        if k < |w| {
          assert s[k] == w[k];
        } else if k > |w| {
          assert s[k] == s'[k - |w| - 1];
        }
      }
    }
  }

  /** One position of a word, a space and more text `z` that starts with a
      description word: neither clause and no `$` starts there. */
  lemma SentencePosition(w0: string, m: string, y: string, z: string, k: nat)
    requires DescWord(w0) && DescWord(m)
    requires z == m + y && (y == [] || y[0] == ' ')
    requires 1 <= k < |w0| + 1 + |z|
    requires k > |w0| + 1 ==> TailAt(z[k - |w0| - 1..]) == None
    ensures TailAt((w0 + (" " + z))[k..]) == None
  {
    var x := w0 + (" " + z);
    if k < |w0| {
      assert x[k] == w0[k];
      QuietAt(x, k);
    } else if k == |w0| {
      assert x[k..] == Spaced(m, y);
      SpaceThenWord(m, y);
    } else {
      if k == |w0| + 1 {
        assert z[0] == m[0];
        QuietAt(z, 0);
      }
      assert x[k..] == z[k - |w0| - 1..];
    }
  }

  /** Inside a sentence followed by a clause or nothing, neither clause and
      no `$` can start. */
  lemma {:induction false} SentenceQuiet(words: seq<string>, rest: string)
    requires DescWords(words)
    requires rest == [] || rest[0] == ' '
    ensures forall k :: 1 <= k < |Sentence(words)| ==> TailAt((Sentence(words) + rest)[k..]) == None
  {
    var w0 := words[0];
    var s := Sentence(words);
    var x := s + rest;
    assert DescWord(w0);
    if |words| == 1 {
      forall k | 1 <= k < |s|
        ensures TailAt(x[k..]) == None
      {
        QuietAt(x, k);
      }
    } else {
      var more := words[1..];
      var z := Sentence(more) + rest;
      assert DescWords(more) by {
        forall i | 0 <= i < |more| ensures DescWord(more[i]) { assert more[i] == words[i + 1]; }
      }
      SentenceQuiet(more, rest);
      var m := more[0];
      assert DescWord(m);
      var y := if |more| == 1 then rest else " " + Sentence(more[1..]) + rest;
      assert z == m + y;
      assert x == w0 + (" " + z);
      forall k | 1 <= k < |s|
        ensures TailAt(x[k..]) == None
      {
        SentencePosition(w0, m, y, z, k);
      }
    }
  }

  lemma DescEndStep(x: string, e: nat)
    requires 1 <= e < |x|
    requires NoBreak(x, e)
    requires TailAt(x[e..]) == None
    ensures DescEnd(x, e) == DescEnd(x, e + 1)
  {
  }

  /** DescEnd wherever it is defined. */
  function DescFrom(x: string, k: nat): Option<Rest>
  {
    if 1 <= k <= |x| && NoBreak(x, k - 1) then DescEnd(x, k) else None
  }

  lemma DescFromStep(x: string, k: nat, n: nat)
    requires 1 <= k < n <= |x|
    requires NoBreak(x, n)
    requires TailAt(x[k..]) == None
    ensures DescFrom(x, k) == DescFrom(x, k + 1)
  {
    DescEndStep(x, k);
  }

  /** The lazy description moves past every position where the tail of the
      pattern does not match. */
  lemma DescEndScan(x: string, n: nat)
    requires 1 <= n <= |x|
    requires NoBreak(x, n)
    requires forall k :: 1 <= k < n ==> TailAt(x[k..]) == None
    ensures NoBreak(x, n - 1) && DescEnd(x, 1) == DescEnd(x, n)
  {
    forall k | 1 <= k < n
      ensures DescFrom(x, k) == DescFrom(x, k + 1)
    {
      DescFromStep(x, k, n);
    }
    Chain(k => DescFrom(x, k), 1, n);
  }

  /** The lazy description stops right before the tail. */
  lemma DescriptionPart(words: seq<string>, tail: string, tl: Tail)
    requires DescWords(words)
    requires tail == [] || tail[0] == ' '
    requires TailAt(tail) == Some(tl)
    ensures DescField(Spaced(Sentence(words), tail), Run(Spaced(Sentence(words), tail), Space))
            == Some(Rest(Sentence(words), tl))
  {
    var s := Sentence(words);
    SentenceShape(words);
    SentenceQuiet(words, tail);
    SpacedRun(s, tail);
    var x := s + tail;
    forall k | 0 <= k < |s|
      ensures x[k] != '\n'
    {
      assert x[k] == s[k];
    }
    DescEndScan(x, |s|);
    assert x[..|s|] == s;
    assert x[|s|..] == tail;
  }

  /** The whole pattern, for any tail it accepts. */
  lemma HeadThenTail(payer: string, amount: string, words: seq<string>, tail: string, tl: Tail)
    requires PayerName(payer) && IsAmount(amount) && DescWords(words)
    requires tail == [] || tail[0] == ' '
    requires TailAt(tail) == Some(tl)
    ensures Search(payer + Spaced("paid", Spaced(amount, Spaced("for", Spaced(Sentence(words), tail)))))
            == Some(Groups(payer, amount, Sentence(words), tl.splitAmong, tl.date))
  {
    var d := Spaced(Sentence(words), tail);
    var t := payer + Spaced("paid", Spaced(amount, Spaced("for", d)));
    PhraseHead(payer, amount, d);
    DescriptionPart(words, tail, tl);
    assert MatchAt(t) == Some(Groups(payer, amount, Sentence(words), tl.splitAmong, tl.date));
  }

  /** A command written in the taught form is matched with exactly its parts
      as the groups. */
  lemma PhraseMatches(p: Parts)
    requires Readable(p)
    ensures Search(Phrase(p)) == Some(Written(p))
  {
    var tail := SplitText(p.names, p.seps, p.sharing, p.date);
    SplitTextTail(p.names, p.seps, p.sharing, p.date);
    assert tail == [] || tail[0] == ' ';
    HeadThenTail(p.payer, p.amount, p.words, tail,
                 Tail(if p.names == [] then None else Some(Join(p.names, p.seps)), p.date));
  }


  /** A name, a comma and a space, then more text that starts with
      something other than whitespace: the name is the first piece. */
  lemma PiecesComma(n: string, rest: string)
    requires forall k :: 0 <= k < |n| ==> n[k] != ',' && !IsSpace(n[k])
    requires rest != [] && !IsSpace(rest[0])
    ensures Pieces(n + (", " + rest)) == [n] + Pieces(rest)
  {
    var t := n + (", " + rest);
    PiecesScan(t, 0, |n|);
    assert t[|n|..] == ", " + rest;
    SeparatorComma(rest);
    assert t[|n| + 2..] == rest;
    assert t[..|n|] == n;
  }

  /** A comma and a single space are one separator of two characters. */
  lemma SeparatorComma(rest: string)
    requires rest != [] && !IsSpace(rest[0])
    ensures SeparatorAt(", " + rest) == 2
  {
    var u := ", " + rest;
    assert u[1..] == " " + rest;
    RunIs(u[1..], Space, 1);
  }

  /** A name, the word "and" between single spaces, then more text that
      starts with something other than whitespace: the name is the first
      piece. */
  lemma PiecesAnd(n: string, rest: string)
    requires forall k :: 0 <= k < |n| ==> n[k] != ',' && !IsSpace(n[k])
    requires rest != [] && !IsSpace(rest[0])
    ensures Pieces(n + (" and " + rest)) == [n] + Pieces(rest)
  {
    var t := n + (" and " + rest);
    PiecesScan(t, 0, |n|);
    assert t[|n|..] == " and " + rest;
    SeparatorAnd(rest);
    assert t[|n| + 5..] == rest;
    assert t[..|n|] == n;
  }

  /** The word "and" between single spaces is one separator of five characters. */
  lemma SeparatorAnd(rest: string)
    requires rest != [] && !IsSpace(rest[0])
    ensures SeparatorAt(" and " + rest) == 5
  {
    var u := " and " + rest;
    RunIs(u, Space, 1);
    assert u[1..][..3] == "and";
    assert u[4..] == " " + rest;
    RunIs(u[4..], Space, 1);
  }

  /** Splitting a joined list gives the list back, whichever separators
      were written. */
  lemma {:induction false} PiecesJoin(names: seq<string>, seps: seq<Sep>)
    requires |names| > 0 && ListNames(names)
    ensures Pieces(Join(names, seps)) == names
  {
    var t := Join(names, seps);
    var n := names[0];
    assert ListName(n);
    if |names| == 1 {
      PiecesScan(t, 0, |t|);
    } else {
      var later := LaterSeps(seps);
      var rest := Join(names[1..], later);
      assert ListNames(names[1..]) by {
        forall i | 0 <= i < |names[1..]| ensures ListName(names[1..][i]) { assert names[1..][i] == names[i + 1]; }
      }
      JoinShape(names[1..], later);
      assert ListName(names[1]);
      if FirstSep(seps) == Comma {
        PiecesComma(n, rest);
      } else {
        PiecesAnd(n, rest);
      }
      PiecesJoin(names[1..], later);
      assert names == [n] + names[1..];
    }
  }


  /** The split moves past characters that start no separator. */
  lemma {:induction false} PiecesScan(t: string, q: nat, stop: nat)
    requires q <= stop <= |t|
    requires forall k :: 0 <= k < stop ==> t[k] != ',' && !IsSpace(t[k])
    ensures PiecesFrom(t, q) == PiecesFrom(t, stop)
    decreases stop - q
  {
    if q < stop {
      assert t[q..][0] == t[q];
      PiecesScan(t, q + 1, stop);
    }
  }

  /** The digit character for `v` (taken below 10). */
  function DigitChar(v: nat): (c: char)
    requires v < 10
    ensures InClass(c, Digit) && DigitValue(c) == v
  {
    ('0' as int + v) as char
  }

  /** The decimal digits of `n`, without leading zeros. */
  function NumberText(n: nat): (t: string)
    ensures |t| > 0 && forall k :: 0 <= k < |t| ==> InClass(t[k], Digit)
  {
    if n < 10 then [DigitChar(n)] else NumberText(n / 10) + [DigitChar(n % 10)]
  }

  /** Reading the digits of `n` gives `n`. */
  lemma {:induction false} WholeNumberText(n: nat)
    ensures Whole(NumberText(n)) == n
  {
    var t := NumberText(n);
    if n >= 10 {
      assert t[..|t| - 1] == NumberText(n / 10);
      WholeNumberText(n / 10);
    }
  }

  /** An amount in cents written with two decimals, as in "12.50". */
  function CentsText(cents: nat): string
  {
    var dimes := cents / 10;
    NumberText(dimes / 10) + "." + [DigitChar(dimes % 10), DigitChar(cents % 10)]
  }

  /** A written amount is one the pattern accepts, and `float` reads it back
      exactly. */
  lemma DecimalCents(cents: nat)
    ensures IsAmount(CentsText(cents))
    ensures Decimal(CentsText(cents)) == cents as real / 100.0
  {
    var dimes := cents / 10;
    var w := NumberText(dimes / 10);
    var f := [DigitChar(dimes % 10), DigitChar(cents % 10)];
    var t := CentsText(cents);
    assert t == w + "." + f;
    RunIs(t, Digit, |w|);
    assert t[..|w|] == w;
    assert t[|w| + 1..] == f;
    RunIs(f, Digit, 2);
    WholeNumberText(dimes / 10);
    assert f[1..] == [f[1]];
    assert f[1..][1..] == [];
    assert Fraction(f[1..]) == (cents % 10) as real / 10.0;
    assert Fraction(f) == ((dimes % 10) as real + (cents % 10) as real / 10.0) / 10.0;
    assert cents == 10 * dimes + cents % 10;
    assert dimes == 10 * (dimes / 10) + dimes % 10;
  }

  /** No capital letters. */
  predicate Lowercase(s: string)
  {
    forall i :: 0 <= i < |s| ==> !('A' <= s[i] <= 'Z')
  }

  lemma LowercaseConcat(a: string, b: string)
    requires Lowercase(a) && Lowercase(b)
    ensures Lowercase(a + b)
  {
  }

  lemma LowercaseSpaced(w: string, x: string)
    requires Lowercase(w) && Lowercase(x)
    ensures Lowercase(Spaced(w, x))
  {
    LowercaseConcat(" ", w);
    LowercaseConcat(" " + w, x);
  }

  lemma {:induction false} LowercaseJoin(names: seq<string>, seps: seq<Sep>)
    requires forall i :: 0 <= i < |names| ==> Lowercase(names[i])
    ensures Lowercase(Join(names, seps))
  {
    if |names| >= 2 {
      var sep := SepText(FirstSep(seps));
      var rest := Join(names[1..], LaterSeps(seps));
      LowercaseJoin(names[1..], LaterSeps(seps));
      LowercaseConcat(sep, rest);
      LowercaseConcat(names[0], sep + rest);
    }
  }

  lemma {:induction false} LowercaseSentence(words: seq<string>)
    requires forall i :: 0 <= i < |words| ==> Lowercase(words[i])
    ensures Lowercase(Sentence(words))
  {
    if |words| >= 2 {
      var rest := Sentence(words[1..]);
      LowercaseSentence(words[1..]);
      LowercaseConcat(" ", rest);
      LowercaseConcat(words[0], " " + rest);
    }
  }

  /** Digits and a point are not capitals. */
  lemma LowercaseAmount(a: string)
    requires IsAmount(a)
    ensures Lowercase(a)
  {
    var d := Run(a, Digit);
    if d < |a| {
      assert forall k :: d + 1 <= k < |a| ==> a[k] == a[d + 1..][k - d - 1];
    }
  }

  /** The payer, the words, the names and the date have no capitals. */
  predicate LowerParts(p: Parts)
  {
    && Lowercase(p.payer)
    && (forall i :: 0 <= i < |p.words| ==> Lowercase(p.words[i]))
    && (forall i :: 0 <= i < |p.names| ==> Lowercase(p.names[i]))
    && (p.date.Some? ==> Lowercase(p.date.value))
  }

  /** The clauses after the description, from lower-case parts, are lower case. */
  lemma LowercaseSplitText(p: Parts)
    requires LowerParts(p)
    ensures Lowercase(SplitText(p.names, p.seps, p.sharing, p.date))
  {
    var dp := DateText(p.date);
    if p.date.Some? {
      LowercaseSpaced(p.date.value, "");
      LowercaseSpaced("on", Spaced(p.date.value, ""));
    }
    if p.names != [] {
      var j := Join(p.names, p.seps);
      var kw := SharingText(p.sharing);
      LowercaseJoin(p.names, p.seps);
      LowercaseSpaced(j, dp);
      LowercaseSpaced(kw, Spaced(j, dp));
      LowercaseSpaced("split", Spaced(kw, Spaced(j, dp)));
    }
  }

  /** A phrase built from lower-case parts is lower case. */
  lemma LowercasePhrase(p: Parts)
    requires LowerParts(p) && IsAmount(p.amount)
    ensures Lowercase(Phrase(p))
  {
    var tail := SplitText(p.names, p.seps, p.sharing, p.date);
    var d := Sentence(p.words);
    LowercaseSplitText(p);
    LowercaseSentence(p.words);
    LowercaseAmount(p.amount);
    LowercaseSpaced(d, tail);
    LowercaseSpaced("for", Spaced(d, tail));
    LowercaseSpaced(p.amount, Spaced("for", Spaced(d, tail)));
    LowercaseSpaced("paid", Spaced(p.amount, Spaced("for", Spaced(d, tail))));
    LowercaseConcat(p.payer, Spaced("paid", Spaced(p.amount, Spaced("for", Spaced(d, tail)))));
  }
}
