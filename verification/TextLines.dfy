// Splitting text into lines and into words, as strings.Split(s, "\n") and
// strings.Fields do.
module TextLines {
  import opened Text

  const NL: string := "\n"

  /** strings.Split with a one-character separator. */
  function Split(s: string, sep: char): (r: seq<string>)
    ensures |r| > 0
  {
    if s == "" then [""]
    else
      var r := Split(s[1..], sep);
      if s[0] == sep then [""] + r else [[s[0]] + r[0]] + r[1..]
  }

  function Lines(s: string): (r: seq<string>)
    ensures |r| > 0
  {
    Split(s, '\n')
  }

  /** The lines, each with its newline. */
  function Unlines(ls: seq<string>): string {
    if ls == [] then "" else ls[0] + NL + Unlines(ls[1..])
  }

  predicate OneLine(l: string) {
    '\n' !in l
  }

  ghost predicate DrawnFrom(l: string, s: string, sep: char) {
    forall c :: c in l ==> c in s && c != sep
  }

  lemma {:induction false} SplitDraws(s: string, sep: char)
    ensures forall i :: 0 <= i < |Split(s, sep)| ==> DrawnFrom(Split(s, sep)[i], s, sep)
    decreases |s|
  {
    if s != "" {
      SplitDraws(s[1..], sep);
      var r := Split(s[1..], sep);
      assert forall c :: c in s[1..] ==> c in s;
      forall i | 0 <= i < |Split(s, sep)| ensures DrawnFrom(Split(s, sep)[i], s, sep) {
        if s[0] == sep {
          assert i == 0 || Split(s, sep)[i] == r[i - 1];
        } else {
          assert DrawnFrom(r[0], s[1..], sep);
          assert i == 0 || Split(s, sep)[i] == r[i];
        }
      }
    }
  }

  lemma UnlinesCons(l: string, ls: seq<string>)
    ensures Unlines([l] + ls) == l + NL + Unlines(ls)
  {
    assert ([l] + ls)[1..] == ls;
  }

  lemma {:induction false} UnlinesOfLines(s: string)
    ensures Unlines(Lines(s)) == s + NL
    decreases |s|
  {
    if s == "" {
      UnlinesCons("", []);
    } else {
      var r := Lines(s[1..]);
      UnlinesOfLines(s[1..]);
      if s[0] == '\n' {
        UnlinesCons("", r);
        assert s + NL == NL + (s[1..] + NL);
      } else {
        UnlinesCons([s[0]] + r[0], r[1..]);
        UnlinesCons(r[0], r[1..]);
        assert r == [r[0]] + r[1..];
        assert s + NL == [s[0]] + (s[1..] + NL);
      }
    }
  }

  lemma {:induction false} UnlinesAppend(a: seq<string>, b: seq<string>)
    ensures Unlines(a + b) == Unlines(a) + Unlines(b)
    decreases |a|
  {
    if a == [] {
      assert a + b == b;
    } else {
      UnlinesAppend(a[1..], b);
      assert (a + b)[1..] == a[1..] + b;
    }
  }

  lemma UnlinesSnoc(ls: seq<string>, l: string)
    ensures Unlines(ls + [l]) == Unlines(ls) + l + NL
  {
    UnlinesAppend(ls, [l]);
    UnlinesCons(l, []);
    assert [l] + [] == [l];
    assert Unlines(ls) + (l + NL + "") == Unlines(ls) + l + NL;
  }

  /** A separator always ends a part. */
  lemma {:induction false} SplitAt(a: string, sep: char, b: string)
    ensures Split(a + [sep] + b, sep) == Split(a, sep) + Split(b, sep)
    decreases |a|
  {
    var s := a + [sep] + b;
    if a == "" {
      assert s[0] == sep && s[1..] == b;
    } else {
      assert s[0] == a[0] && s[1..] == a[1..] + [sep] + b;
      SplitAt(a[1..], sep, b);
    }
  }

  lemma {:induction false} SplitOfOnePart(l: string, sep: char)
    requires sep !in l
    ensures Split(l, sep) == [l]
    decreases |l|
  {
    if l != "" {
      SplitOfOnePart(l[1..], sep);
      assert l[0] in l && [l[0]] + l[1..] == l;
    }
  }

  lemma LinesAtBreak(a: string, b: string)
    ensures Lines(a + NL + b) == Lines(a) + Lines(b)
  {
    SplitAt(a, '\n', b);
  }

  lemma {:induction false} LinesOfUnlines(ls: seq<string>)
    requires forall i :: 0 <= i < |ls| ==> OneLine(ls[i])
    ensures Lines(Unlines(ls)) == ls + [""]
    decreases |ls|
  {
    if ls != [] {
      SplitOfOnePart(ls[0], '\n');
      LinesOfUnlines(ls[1..]);
      LinesAtBreak(ls[0], Unlines(ls[1..]));
    }
  }

  // ----- Words -----

  function WordEnd(s: string): (n: nat)
    ensures n <= |s|
    ensures forall i :: 0 <= i < n ==> !IsSpace(s[i])
    ensures n < |s| ==> IsSpace(s[n])
  {
    if s == "" || IsSpace(s[0]) then 0 else 1 + WordEnd(s[1..])
  }

  function TrimLeftLength(s: string): (n: nat)
    ensures n <= |s| && s[n..] == TrimLeft(s)
    ensures n < |s| ==> !IsSpace(s[n])
  {
    if s != "" && IsSpace(s[0]) then 1 + TrimLeftLength(s[1..]) else 0
  }

  function Fields(s: string): seq<string>
    decreases |s|
  {
    var t := s[TrimLeftLength(s)..];
    if t == "" then [] else [t[..WordEnd(t)]] + Fields(t[WordEnd(t)..])
  }

  predicate IsWord(w: string) {
    w != "" && forall i :: 0 <= i < |w| ==> !IsSpace(w[i])
  }

  lemma {:induction false} FieldsOfWord(w: string, rest: string)
    requires IsWord(w) && (rest == "" || IsSpace(rest[0]))
    ensures Fields(w + rest) == [w] + Fields(rest)
  {
    var s := w + rest;
    assert s[0] == w[0] && TrimLeftLength(s) == 0 && s[0..] == s;
    var n := WordEnd(s);
    assert forall i :: 0 <= i < |w| ==> s[i] == w[i];
    if rest != "" {
      assert s[|w|] == rest[0];
    }
    assert n == |w| && s[..n] == w && s[n..] == rest;
  }

  lemma FieldsAfterSpace(s: string)
    ensures Fields(" " + s) == Fields(s)
  {
    var t := " " + s;
    assert t[1..] == s && TrimLeft(t) == TrimLeft(s);
    assert t[TrimLeftLength(t)..] == s[TrimLeftLength(s)..];
  }

  lemma {:induction false} FieldsStep(w: string, rest: string)
    requires IsWord(w)
    ensures Fields(w + (" " + rest)) == [w] + Fields(rest)
  {
    FieldsOfWord(w, " " + rest);
    FieldsAfterSpace(rest);
  }

  lemma {:induction false} FieldsOfTwo(a: string, b: string)
    requires IsWord(a) && IsWord(b)
    ensures Fields(a + (" " + b)) == [a, b]
  {
    FieldsStep(a, b);
    FieldsOfWord(b, "");
    assert b + "" == b && Fields("") == [];
  }
}
