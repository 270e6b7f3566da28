/**
 * A reference semantics for the regular expressions the schemas use.
 *
 * `Matches(r, s)` says that the whole of `s` is in the language of `r`;
 * this is what `RegExp.prototype.test` computes for a pattern anchored with
 * `^...$` (no `m` flag), and, since none of the source's patterns uses
 * back-references or look-around, backtracking finds a match whenever the
 * language contains one. `Found(r, s)` is the unanchored `test`: some
 * substring of `s` matches.
 */
module Regex {
  import opened Text

  datatype CharClass = Digit | NonSpace | AnyButLineBreak | Exactly(c: char)

  predicate InClass(c: char, k: CharClass) {
    match k
    case Digit => IsDigit(c)
    case NonSpace => !IsSpace(c)
    case AnyButLineBreak => !IsLineTerminator(c)
    case Exactly(d) => c == d
  }

  predicate AllIn(s: string, k: CharClass) {
    forall i :: 0 <= i < |s| ==> InClass(s[i], k)
  }

  datatype Re =
    | Eps
    | Chr(k: CharClass)
    | Cat(first: Re, second: Re)
    | Alt(left: Re, right: Re)
    | Star(body: Re)

  ghost predicate Matches(r: Re, s: string)
    decreases r, |s|
  {
    match r
    case Eps => s == []
    case Chr(k) => |s| == 1 && InClass(s[0], k)
    case Cat(a, b) => exists i :: 0 <= i <= |s| && Matches(a, s[..i]) && Matches(b, s[i..])
    case Alt(a, b) => Matches(a, s) || Matches(b, s)
    case Star(a) => s == [] || exists i :: 1 <= i <= |s| && Matches(a, s[..i]) && Matches(r, s[i..])
  }

  /** Unanchored search: some substring of `s` is in the language of `r`. */
  ghost predicate Found(r: Re, s: string) {
    exists i, j :: 0 <= i <= j <= |s| && Matches(r, s[i..j])
  }

  /** Every string `r` matches has length `n`. */
  ghost predicate FixedLength(r: Re, n: nat) {
    forall t :: Matches(r, t) ==> |t| == n
  }

  /** The literal text `w`. */
  function Lit(w: string): Re
    decreases |w|
  {
    if w == [] then Eps else Cat(Chr(Exactly(w[0])), Lit(w[1..]))
  }

  /** `r?` */
  function Opt(r: Re): Re {
    Alt(r, Eps)
  }

  /** `r+` */
  function Plus(r: Re): Re {
    Cat(r, Star(r))
  }

  /** `r{n}` */
  function Rep(r: Re, n: nat): Re {
    if n == 0 then Eps else Cat(r, Rep(r, n - 1))
  }

  /** `r{lo,hi}` */
  function Between(r: Re, lo: nat, hi: nat): Re
    requires lo <= hi
  {
    Cat(Rep(r, lo), Rep(Opt(r), hi - lo))
  }

  /** `(?:w0|w1|...)` over literal words. */
  function AnyOf(ws: seq<string>): Re
    requires |ws| > 0
    decreases |ws|
  {
    if |ws| == 1 then Lit(ws[0]) else Alt(Lit(ws[0]), AnyOf(ws[1..]))
  }

  // ---- facts about character classes over strings ----

  lemma AllInCons(s: string, k: CharClass)
    requires |s| > 0
    ensures AllIn(s, k) <==> InClass(s[0], k) && AllIn(s[1..], k)
  {
  }

  lemma AllInSplit(s: string, n: nat, k: CharClass)
    requires n <= |s|
    ensures AllIn(s, k) <==> AllIn(s[..n], k) && AllIn(s[n..], k)
  {
  }

  // ---- concatenation ----

  /** When every match of `a` has length `n`, a match of `a` then `b` splits at `n`. */
  lemma CatAt(a: Re, b: Re, n: nat, s: string)
    requires FixedLength(a, n)
    ensures Matches(Cat(a, b), s) <==> n <= |s| && Matches(a, s[..n]) && Matches(b, s[n..])
  {
  }

  lemma CatEps(b: Re, s: string)
    ensures Matches(Cat(Eps, b), s) <==> Matches(b, s)
  {
    if Matches(b, s) {
      assert s[..0] == [] && s[0..] == s;
    }
  }

  lemma CatAlt(a1: Re, a2: Re, b: Re, s: string)
    ensures Matches(Cat(Alt(a1, a2), b), s) <==> Matches(Cat(a1, b), s) || Matches(Cat(a2, b), s)
  {
  }

  lemma ChrLength(k: CharClass)
    ensures FixedLength(Chr(k), 1)
  {
  }

  lemma {:induction false} LitMatches(w: string, s: string)
    ensures Matches(Lit(w), s) <==> s == w
    decreases |w|
  {
    if w != [] {
      var head := Chr(Exactly(w[0]));
      ChrLength(Exactly(w[0]));
      CatAt(head, Lit(w[1..]), 1, s);
      if 1 <= |s| {
        LitMatches(w[1..], s[1..]);
        assert s == [s[0]] + s[1..];
        assert w == [w[0]] + w[1..];
      }
    }
  }

  lemma LitLength(w: string)
    ensures FixedLength(Lit(w), |w|)
  {
    forall t | Matches(Lit(w), t) ensures |t| == |w| {
      LitMatches(w, t);
    }
  }

  /** A literal prefix: `w` then `b`. */
  lemma CatLit(w: string, b: Re, s: string)
    ensures Matches(Cat(Lit(w), b), s) <==> StartsWith(s, w) && Matches(b, s[|w|..])
  {
    LitLength(w);
    CatAt(Lit(w), b, |w|, s);
    if |w| <= |s| {
      LitMatches(w, s[..|w|]);
    }
  }

  lemma {:induction false} AnyOfMatches(ws: seq<string>, s: string)
    requires |ws| > 0
    ensures Matches(AnyOf(ws), s) <==> s in ws
    decreases |ws|
  {
    LitMatches(ws[0], s);
    if |ws| > 1 {
      AnyOfMatches(ws[1..], s);
      assert ws == [ws[0]] + ws[1..];
    }
  }

  // ---- repetition of one character class ----

  lemma {:induction false} RepClass(k: CharClass, n: nat, s: string)
    ensures Matches(Rep(Chr(k), n), s) <==> |s| == n && AllIn(s, k)
  {
    if n > 0 {
      ChrLength(k);
      CatAt(Chr(k), Rep(Chr(k), n - 1), 1, s);
      if 1 <= |s| {
        RepClass(k, n - 1, s[1..]);
        AllInCons(s, k);
      }
    }
  }

  lemma RepLength(k: CharClass, n: nat)
    ensures FixedLength(Rep(Chr(k), n), n)
  {
    forall t | Matches(Rep(Chr(k), n), t) ensures |t| == n {
      RepClass(k, n, t);
    }
  }

  lemma {:induction false} RepOptClass(k: CharClass, m: nat, s: string)
    ensures Matches(Rep(Opt(Chr(k)), m), s) <==> |s| <= m && AllIn(s, k)
  {
    if m > 0 {
      var o, rest := Opt(Chr(k)), Rep(Opt(Chr(k)), m - 1);
      assert Rep(Opt(Chr(k)), m) == Cat(o, rest);
      assert o == Alt(Chr(k), Eps);
      if Matches(Cat(o, rest), s) {
        var i :| 0 <= i <= |s| && Matches(o, s[..i]) && Matches(rest, s[i..]);
        RepOptClass(k, m - 1, s[i..]);
        assert Matches(Chr(k), s[..i]) || Matches(Eps, s[..i]);
        if i == 0 {
          assert s[i..] == s;
        } else {
          assert i == 1;
          AllInCons(s, k);
        }
      }
      if |s| <= m && AllIn(s, k) {
        if s == [] {
          RepOptClass(k, m - 1, s);
          assert Matches(o, s[..0]) && s[0..] == s;
        } else {
          RepOptClass(k, m - 1, s[1..]);
          AllInCons(s, k);
          assert Matches(Chr(k), s[..1]);
          assert Matches(o, s[..1]);
        }
      }
    }
  }

  lemma {:induction false} StarClass(k: CharClass, s: string)
    ensures Matches(Star(Chr(k)), s) <==> AllIn(s, k)
    decreases |s|
  {
    if s != [] {
      AllInCons(s, k);
      StarClass(k, s[1..]);
      if Matches(Star(Chr(k)), s) {
        var i :| 1 <= i <= |s| && Matches(Chr(k), s[..i]) && Matches(Star(Chr(k)), s[i..]);
        assert i == 1;
      }
      if AllIn(s, k) {
        assert Matches(Chr(k), s[..1]);
      }
    }
  }

  lemma PlusClass(k: CharClass, s: string)
    ensures Matches(Plus(Chr(k)), s) <==> 1 <= |s| && AllIn(s, k)
  {
    ChrLength(k);
    CatAt(Chr(k), Star(Chr(k)), 1, s);
    if 1 <= |s| {
      StarClass(k, s[1..]);
      AllInCons(s, k);
    }
  }

  /** `[k]*` then `b`: some prefix of class `k`, the rest matching `b`. */
  lemma CatStarClass(k: CharClass, b: Re, s: string)
    ensures Matches(Cat(Star(Chr(k)), b), s)
        <==> exists i :: 0 <= i <= |s| && AllIn(s[..i], k) && Matches(b, s[i..])
  {
    forall i | 0 <= i <= |s| ensures Matches(Star(Chr(k)), s[..i]) <==> AllIn(s[..i], k) {
      StarClass(k, s[..i]);
    }
  }

  /** `[k]+` then `b`: a non-empty prefix of class `k`, the rest matching `b`. */
  lemma CatPlusClass(k: CharClass, b: Re, s: string)
    ensures Matches(Cat(Plus(Chr(k)), b), s)
        <==> exists i :: 1 <= i <= |s| && AllIn(s[..i], k) && Matches(b, s[i..])
  {
    forall i | 0 <= i <= |s| ensures Matches(Plus(Chr(k)), s[..i]) <==> 1 <= i && AllIn(s[..i], k) {
      PlusClass(k, s[..i]);
    }
  }
}
