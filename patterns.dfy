/**
 * The regular-expression literals of the two schema layers, each written
 * as a `Regex.Re` exactly as it appears in the source, next to a direct,
 * executable predicate over the string. The lemmas prove that the two
 * agree on every string, so the validators can use the direct predicates.
 */
module Patterns {
  import opened Text
  import opened Regex

  // ---- anchored digit patterns ----

  /** `/^\d{4,6}$/`: pincode, in both layers. */
  const PincodePattern: Re := Between(Chr(Digit), 4, 6)

  /** `/^\d{10}$/`: mobile number, in both layers. */
  const MobilePattern: Re := Rep(Chr(Digit), 10)

  /** `/^\d{4}$/`: certification year. */
  const YearPattern: Re := Rep(Chr(Digit), 4)

  /** `/^\d{4}-\d{2}-\d{2}$/`: the shape of a date of birth. */
  const DatePattern: Re :=
    Cat(Rep(Chr(Digit), 4), Cat(Lit("-"), Cat(Rep(Chr(Digit), 2), Cat(Lit("-"), Rep(Chr(Digit), 2)))))

  predicate PincodeShape(s: string) {
    4 <= |s| <= 6 && AllDigits(s)
  }

  predicate MobileShape(s: string) {
    |s| == 10 && AllDigits(s)
  }

  predicate YearShape(s: string) {
    |s| == 4 && AllDigits(s)
  }

  /** Ten characters: digits, except for `-` at positions 4 and 7. */
  predicate DateShape(s: string) {
    && |s| == 10
    && AllDigits(s[..4]) && s[4] == '-'
    && AllDigits(s[5..7]) && s[7] == '-'
    && AllDigits(s[8..])
  }

  // ---- URL-like patterns of the resume storage model ----

  /** `https?:\/\/` followed by `rest`. */
  function HttpThen(rest: Re): Re {
    Cat(Lit("http"), Cat(Opt(Lit("s")), Cat(Lit("://"), rest)))
  }

  /** `.*` */
  const AnyText: Re := Star(Chr(AnyButLineBreak))

  const ImageExtensions: seq<string> := ["png", "jpg", "jpeg", "gif", "svg"]

  /** `/^(https?:\/\/.*\.(?:png|jpg|jpeg|gif|svg))?$/`: photo. */
  const PhotoPattern: Re := Opt(HttpThen(Cat(AnyText, Cat(Lit("."), AnyOf(ImageExtensions)))))

  /** `/^(https?:\/\/.*<host>.*)?$/` */
  function HostPattern(host: string): Re {
    Opt(HttpThen(Cat(AnyText, Cat(Lit(host), AnyText))))
  }

  const LinkedInHost: string := "linkedin.com/"
  const GithubHost: string := "github.com/"

  /** `/^(https?:\/\/.*)?$/`: project link. */
  const LinkPattern: Re := Opt(HttpThen(AnyText))

  /** `/\S+@\S+\.\S+/`, searched for anywhere in the string. */
  const EmailPattern: Re :=
    Cat(Plus(Chr(NonSpace)), Cat(Lit("@"), Cat(Plus(Chr(NonSpace)), Cat(Lit("."), Plus(Chr(NonSpace))))))

  /** Length of a leading `https://` or `http://`; 0 when there is none. */
  function SchemeLength(s: string): nat {
    if StartsWith(s, "https://") then 8 else if StartsWith(s, "http://") then 7 else 0
  }

  /** Empty, or a scheme, then text without line breaks ending in `.` and an image extension. */
  predicate PhotoShape(s: string) {
    s == [] || (SchemeLength(s) > 0 && HasSuffixIn(s[SchemeLength(s)..], ImageExtensions))
  }

  /** Empty, or a scheme, then text without line breaks that contains `host`. */
  predicate HostShape(s: string, host: string) {
    || s == []
    || (SchemeLength(s) > 0 && NoLineBreak(s[SchemeLength(s)..]) && Contains(s[SchemeLength(s)..], host))
  }

  predicate LinkedInShape(s: string) {
    HostShape(s, LinkedInHost)
  }

  predicate GithubShape(s: string) {
    HostShape(s, GithubHost)
  }

  predicate LinkShape(s: string) {
    s == [] || (SchemeLength(s) > 0 && NoLineBreak(s[SchemeLength(s)..]))
  }

  /**
   * Some `@` at index a and `.` at index b > a + 1, with a non-space just
   * before the `@`, only non-spaces between them and a non-space just after the `.`.
   */
  predicate EmailShape(s: string) {
    exists a, b | 0 < a < |s| && a + 1 < b < |s| - 1 :: EmailAt(s, a, b)
  }

  predicate EmailAt(s: string, a: int, b: int)
    requires 0 < a && a + 1 < b && b + 1 < |s|
  {
    s[a] == '@' && s[b] == '.' && !IsSpace(s[a - 1]) && NoSpace(s[a + 1..b]) && !IsSpace(s[b + 1])
  }

  // ---- the character classes of the direct predicates ----

  lemma DigitClass(s: string)
    ensures AllIn(s, Digit) <==> AllDigits(s)
  {
  }

  lemma LineBreakClass(s: string)
    ensures AllIn(s, AnyButLineBreak) <==> NoLineBreak(s)
  {
  }

  lemma SpaceClass(s: string)
    ensures AllIn(s, NonSpace) <==> NoSpace(s)
  {
  }

  // ---- the equivalences ----

  lemma PincodePatternMatches(s: string)
    ensures Matches(PincodePattern, s) <==> PincodeShape(s)
  {
    RepLength(Digit, 4);
    CatAt(Rep(Chr(Digit), 4), Rep(Opt(Chr(Digit)), 2), 4, s);
    if 4 <= |s| {
      RepClass(Digit, 4, s[..4]);
      RepOptClass(Digit, 2, s[4..]);
      AllInSplit(s, 4, Digit);
    }
    DigitClass(s);
  }

  lemma MobilePatternMatches(s: string)
    ensures Matches(MobilePattern, s) <==> MobileShape(s)
  {
    RepClass(Digit, 10, s);
    DigitClass(s);
  }

  lemma YearPatternMatches(s: string)
    ensures Matches(YearPattern, s) <==> YearShape(s)
  {
    RepClass(Digit, 4, s);
    DigitClass(s);
  }

  lemma DatePatternMatches(s: string)
    ensures Matches(DatePattern, s) <==> DateShape(s)
  {
    var d2 := Rep(Chr(Digit), 2);
    var tail3 := Cat(Lit("-"), d2);
    var tail2 := Cat(d2, tail3);
    var tail1 := Cat(Lit("-"), tail2);
    RepLength(Digit, 4);
    RepLength(Digit, 2);
    CatAt(Rep(Chr(Digit), 4), tail1, 4, s);
    if 4 <= |s| {
      var t1 := s[4..];
      RepClass(Digit, 4, s[..4]);
      DigitClass(s[..4]);
      CatLit("-", tail2, t1);
      if 1 <= |t1| {
        var t2 := t1[1..];
        CatAt(d2, tail3, 2, t2);
        if 2 <= |t2| {
          var t3 := t2[2..];
          RepClass(Digit, 2, t2[..2]);
          DigitClass(t2[..2]);
          CatLit("-", d2, t3);
          if 1 <= |t3| {
            RepClass(Digit, 2, t3[1..]);
            DigitClass(t3[1..]);
            assert t2[..2] == s[5..7];
            assert t3[1..] == s[8..];
          }
        }
      }
    }
  }

  /** A prefix made of two words: the first, then the second right after it. */
  lemma StartsWithBoth(s: string, w1: string, w2: string)
    ensures StartsWith(s, w1 + w2) <==> StartsWith(s, w1) && StartsWith(s[|w1|..], w2)
  {
    var n := |w1| + |w2|;
    if StartsWith(s, w1) && StartsWith(s[|w1|..], w2) {
      assert s[..n] == s[..|w1|] + s[|w1|..][..|w2|];
    }
    if StartsWith(s, w1 + w2) {
      assert s[..|w1|] == (w1 + w2)[..|w1|];
      assert s[|w1|..][..|w2|] == (w1 + w2)[|w1|..];
    }
  }

  /** `s?:\/\/` then `rest`. */
  lemma SchemeTailMatches(rest: Re, t: string)
    ensures Matches(Cat(Opt(Lit("s")), Cat(Lit("://"), rest)), t)
        <==> || (StartsWith(t, "s://") && Matches(rest, t[4..]))
             || (StartsWith(t, "://") && Matches(rest, t[3..]))
  {
    var tail := Cat(Lit("://"), rest);
    CatAlt(Lit("s"), Eps, tail, t);
    CatEps(tail, t);
    CatLit("s", tail, t);
    CatLit("://", rest, t);
    StartsWithBoth(t, "s", "://");
    assert "s" + "://" == "s://";
    if |t| >= 1 {
      CatLit("://", rest, t[1..]);
      if |t| >= 4 {
        assert t[1..][3..] == t[4..];
      }
    }
  }

  /** `https?:\/\/` then `rest`: the scheme is present and `rest` matches what follows it. */
  lemma HttpThenMatches(rest: Re, s: string)
    ensures Matches(HttpThen(rest), s) <==> SchemeLength(s) > 0 && Matches(rest, s[SchemeLength(s)..])
  {
    CatLit("http", Cat(Opt(Lit("s")), Cat(Lit("://"), rest)), s);
    StartsWithBoth(s, "http", "s://");
    StartsWithBoth(s, "http", "://");
    assert "http" + "s://" == "https://";
    assert "http" + "://" == "http://";
    if StartsWith(s, "http") {
      var t := s[4..];
      SchemeTailMatches(rest, t);
      if |t| >= 4 {
        assert t[4..] == s[8..];
      }
      if |t| >= 3 {
        assert t[3..] == s[7..];
      }
    }
  }

  /** `.*\.(?:w0|w1|...)`: no line break, and a final `.` and one of the words. */
  predicate HasSuffixIn(t: string, words: seq<string>) {
    exists e | e in words :: EndsWith(t, "." + e) && NoLineBreak(t[..|t| - |e| - 1])
  }

  lemma SuffixMatchesForward(t: string, words: seq<string>)
    requires |words| > 0
    requires Matches(Cat(AnyText, Cat(Lit("."), AnyOf(words))), t)
    ensures HasSuffixIn(t, words)
  {
    var tail := Cat(Lit("."), AnyOf(words));
    CatStarClass(AnyButLineBreak, tail, t);
    var i :| 0 <= i <= |t| && AllIn(t[..i], AnyButLineBreak) && Matches(tail, t[i..]);
    CatLit(".", AnyOf(words), t[i..]);
    var e := t[i..][1..];
    AnyOfMatches(words, e);
    assert t[i..] == "." + e;
    LineBreakClass(t[..i]);
    assert t[..|t| - |e| - 1] == t[..i];
    assert EndsWith(t, "." + e);
  }

  lemma SuffixMatchesBackward(t: string, words: seq<string>)
    requires |words| > 0
    requires HasSuffixIn(t, words)
    ensures Matches(Cat(AnyText, Cat(Lit("."), AnyOf(words))), t)
  {
    var tail := Cat(Lit("."), AnyOf(words));
    var e :| e in words && EndsWith(t, "." + e) && NoLineBreak(t[..|t| - |e| - 1]);
    var i := |t| - |e| - 1;
    assert t[i..] == "." + e;
    assert t[i..][1..] == e;
    AnyOfMatches(words, e);
    CatLit(".", AnyOf(words), t[i..]);
    LineBreakClass(t[..i]);
    CatStarClass(AnyButLineBreak, tail, t);
  }

  lemma PhotoPatternMatches(s: string)
    ensures Matches(PhotoPattern, s) <==> PhotoShape(s)
  {
    var body := Cat(AnyText, Cat(Lit("."), AnyOf(ImageExtensions)));
    HttpThenMatches(body, s);
    if SchemeLength(s) > 0 {
      var t := s[SchemeLength(s)..];
      if Matches(body, t) {
        SuffixMatchesForward(t, ImageExtensions);
      }
      if HasSuffixIn(t, ImageExtensions) {
        SuffixMatchesBackward(t, ImageExtensions);
      }
    }
  }

  /** A line-break-free string split around an occurrence of `host`. */
  lemma NoLineBreakAround(t: string, i: nat, host: string)
    requires OccursAt(t, host, i)
    ensures NoLineBreak(t) <==> NoLineBreak(t[..i]) && NoLineBreak(host) && NoLineBreak(t[i + |host|..])
  {
    if NoLineBreak(t[..i]) && NoLineBreak(host) && NoLineBreak(t[i + |host|..]) {
      forall j | 0 <= j < |t| ensures !IsLineTerminator(t[j]) {
        if j < i {
          assert t[j] == t[..i][j];
        } else if j < i + |host| {
          assert t[j] == t[i..i + |host|][j - i];
        } else {
          assert t[j] == t[i + |host|..][j - i - |host|];
        }
      }
    }
    if NoLineBreak(t) {
      forall j | 0 <= j < |host| ensures !IsLineTerminator(host[j]) {
        assert host[j] == t[i + j];
      }
    }
  }

  lemma HostBodyForward(t: string, host: string)
    requires NoLineBreak(host)
    requires Matches(Cat(AnyText, Cat(Lit(host), AnyText)), t)
    ensures NoLineBreak(t) && Contains(t, host)
  {
    var tail := Cat(Lit(host), AnyText);
    CatStarClass(AnyButLineBreak, tail, t);
    var i :| 0 <= i <= |t| && AllIn(t[..i], AnyButLineBreak) && Matches(tail, t[i..]);
    var u := t[i..];
    CatLit(host, AnyText, u);
    assert StartsWith(u, host) && Matches(AnyText, u[|host|..]);
    var v := u[|host|..];
    StarClass(AnyButLineBreak, v);
    assert v == t[i + |host|..];
    assert u[..|host|] == t[i..i + |host|];
    assert OccursAt(t, host, i);
    LineBreakClass(t[..i]);
    LineBreakClass(v);
    NoLineBreakAround(t, i, host);
  }

  lemma HostBodyBackward(t: string, host: string)
    requires NoLineBreak(t) && NoLineBreak(host) && Contains(t, host)
    ensures Matches(Cat(AnyText, Cat(Lit(host), AnyText)), t)
  {
    var tail := Cat(Lit(host), AnyText);
    var i :| 0 <= i <= |t| && OccursAt(t, host, i);
    NoLineBreakAround(t, i, host);
    LineBreakClass(t[..i]);
    LineBreakClass(t[i + |host|..]);
    assert t[i..][|host|..] == t[i + |host|..];
    assert t[i..][..|host|] == t[i..i + |host|];
    StarClass(AnyButLineBreak, t[i..][|host|..]);
    CatLit(host, AnyText, t[i..]);
    CatStarClass(AnyButLineBreak, tail, t);
  }

  /** The profile patterns, for any host free of line breaks. */
  lemma HostPatternMatches(s: string, host: string)
    requires NoLineBreak(host)
    ensures Matches(HostPattern(host), s) <==> HostShape(s, host)
  {
    var body := Cat(AnyText, Cat(Lit(host), AnyText));
    HttpThenMatches(body, s);
    if SchemeLength(s) > 0 {
      var t := s[SchemeLength(s)..];
      if Matches(body, t) {
        HostBodyForward(t, host);
      }
      if NoLineBreak(t) && Contains(t, host) {
        HostBodyBackward(t, host);
      }
    }
  }

  lemma HostsAreSingleLine()
    ensures NoLineBreak(LinkedInHost) && NoLineBreak(GithubHost)
  {
  }

  lemma LinkedInPatternMatches(s: string)
    ensures Matches(HostPattern(LinkedInHost), s) <==> LinkedInShape(s)
  {
    HostsAreSingleLine();
    HostPatternMatches(s, LinkedInHost);
  }

  lemma GithubPatternMatches(s: string)
    ensures Matches(HostPattern(GithubHost), s) <==> GithubShape(s)
  {
    HostsAreSingleLine();
    HostPatternMatches(s, GithubHost);
  }

  lemma LinkPatternMatches(s: string)
    ensures Matches(LinkPattern, s) <==> LinkShape(s)
  {
    HttpThenMatches(AnyText, s);
    if SchemeLength(s) > 0 {
      StarClass(AnyButLineBreak, s[SchemeLength(s)..]);
      LineBreakClass(s[SchemeLength(s)..]);
    }
  }

  lemma SliceOfSlice(s: string, i: int, j: int, x: int, y: int)
    requires 0 <= i <= j <= |s| && 0 <= x <= y <= j - i
    ensures s[i..j][x..y] == s[i + x..i + y]
  {
    var left, right := s[i..j][x..y], s[i + x..i + y];
    assert |left| == |right|;
    forall k | 0 <= k < |left| ensures left[k] == right[k] {
      assert left[k] == s[i..j][x + k] == s[i + x + k];
    }
  }

  /** The anchored form of the email pattern, split at the `@` (index a) and the `.` (index b). */
  predicate EmailSplit(u: string, a: int, b: int)
    requires 0 < a && a + 1 < b && b + 1 < |u|
  {
    u[a] == '@' && u[b] == '.' && NoSpace(u[..a]) && NoSpace(u[a + 1..b]) && NoSpace(u[b + 1..])
  }

  /** The part of the email pattern after the `@`: `\S+\.\S+`. */
  predicate DomainSplit(v: string, c: int)
    requires 0 < c && c + 1 < |v|
  {
    v[c] == '.' && NoSpace(v[..c]) && NoSpace(v[c + 1..])
  }

  lemma DomainMatchForward(v: string)
    requires Matches(Cat(Plus(Chr(NonSpace)), Cat(Lit("."), Plus(Chr(NonSpace)))), v)
    ensures exists c | 0 < c < |v| - 1 :: DomainSplit(v, c)
  {
    var x3 := Cat(Lit("."), Plus(Chr(NonSpace)));
    CatPlusClass(NonSpace, x3, v);
    var c :| 1 <= c <= |v| && AllIn(v[..c], NonSpace) && Matches(x3, v[c..]);
    CatLit(".", Plus(Chr(NonSpace)), v[c..]);
    var w := v[c..][1..];
    PlusClass(NonSpace, w);
    assert w == v[c + 1..];
    SpaceClass(v[..c]);
    SpaceClass(w);
    assert DomainSplit(v, c);
  }

  lemma EmailMatchForward(u: string)
    requires Matches(EmailPattern, u)
    ensures exists a, b | 0 < a < |u| && a + 1 < b < |u| - 1 :: EmailSplit(u, a, b)
  {
    var x2 := Cat(Plus(Chr(NonSpace)), Cat(Lit("."), Plus(Chr(NonSpace))));
    var x1 := Cat(Lit("@"), x2);
    CatPlusClass(NonSpace, x1, u);
    var a :| 1 <= a <= |u| && AllIn(u[..a], NonSpace) && Matches(x1, u[a..]);
    CatLit("@", x2, u[a..]);
    var v := u[a..][1..];
    assert v == u[a + 1..];
    DomainMatchForward(v);
    var c :| 0 < c < |v| - 1 && DomainSplit(v, c);
    SpaceClass(u[..a]);
    EmailSplitAt(u, a, c);
  }

  /** A local part at `a` and a domain split at `c` give the split at `a` and `a + 1 + c`. */
  lemma EmailSplitAt(u: string, a: int, c: int)
    requires 0 < a < |u| && u[a] == '@' && NoSpace(u[..a])
    requires 0 < c && c + 1 < |u[a + 1..]| && DomainSplit(u[a + 1..], c)
    ensures EmailSplit(u, a, a + 1 + c)
  {
    var v, b := u[a + 1..], a + 1 + c;
    assert u[b] == v[c];
    SliceOfSlice(u, a + 1, |u|, 0, c);
    SliceOfSlice(u, a + 1, |u|, c + 1, |v|);
    assert v[..c] == u[a + 1..b];
    assert v[c + 1..] == u[b + 1..];
  }

  lemma EmailMatchBackward(u: string, a: int, b: int)
    requires 0 < a && a + 1 < b && b + 1 < |u|
    requires EmailSplit(u, a, b)
    ensures Matches(EmailPattern, u)
  {
    var ns := Chr(NonSpace);
    var x3 := Cat(Lit("."), Plus(ns));
    var x2 := Cat(Plus(ns), x3);
    var x1 := Cat(Lit("@"), x2);
    var v := u[a + 1..];
    var c := b - a - 1;
    var w := u[b + 1..];
    SpaceClass(u[..a]);
    SpaceClass(u[a + 1..b]);
    SpaceClass(w);
    PlusClass(NonSpace, w);
    assert v[c..] == u[b..];
    assert v[c..][1..] == w;
    CatLit(".", Plus(ns), v[c..]);
    assert v[..c] == u[a + 1..b];
    CatPlusClass(NonSpace, x3, v);
    assert u[a..][1..] == v;
    CatLit("@", x2, u[a..]);
    CatPlusClass(NonSpace, x1, u);
  }

  lemma EmailFoundForward(s: string, i: int, j: int)
    requires 0 <= i <= j <= |s| && Matches(EmailPattern, s[i..j])
    ensures EmailShape(s)
  {
    var u := s[i..j];
    EmailMatchForward(u);
    var a, b :| 0 < a < |u| && a + 1 < b < |u| - 1 && EmailSplit(u, a, b);
    assert s[i + a - 1] == u[..a][a - 1];
    SliceOfSlice(s, i, j, a + 1, b);
    assert s[i + b + 1] == u[b + 1..][0];
    assert EmailAt(s, i + a, i + b);
  }

  lemma EmailFoundBackward(s: string, a: int, b: int)
    requires 0 < a < |s| && a + 1 < b < |s| - 1 && EmailAt(s, a, b)
    ensures Found(EmailPattern, s)
  {
    var u := s[a - 1..b + 2];
    assert u[..1] == [s[a - 1]];
    SliceOfSlice(s, a - 1, b + 2, 2, b - a + 1);
    assert u[b - a + 2..] == [s[b + 1]];
    assert EmailSplit(u, 1, b - a + 1);
    EmailMatchBackward(u, 1, b - a + 1);
  }

  /** `/\S+@\S+\.\S+/.test(s)` holds exactly when `s` has the shape `EmailShape` describes. */
  lemma EmailPatternFound(s: string)
    ensures Found(EmailPattern, s) <==> EmailShape(s)
  {
    if Found(EmailPattern, s) {
      var i, j :| 0 <= i <= j <= |s| && Matches(EmailPattern, s[i..j]);
      EmailFoundForward(s, i, j);
    }
    if EmailShape(s) {
      var a, b :| 0 < a < |s| && a + 1 < b < |s| - 1 && EmailAt(s, a, b);
      EmailFoundBackward(s, a, b);
    }
  }
}
