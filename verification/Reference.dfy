/**
  Chart references: the parser with its two ways of telling a port from a tag, and the printer.
  Whether a repository parses as a URL is a parameter `url`.
*/
module Reference {
  import opened Wrappers
  import opened Strings

  datatype Reference = Reference(tag: string, repo: string) {
    function FullName(): string {
      if tag == "" then repo else repo + ":" + tag
    }
  }

  type UrlCheck = string -> bool

  // ----- ports and integers

  predicate InRange(s: string, i: nat, lo: char, hi: char) {
    i < |s| && lo <= s[i] <= hi
  }

  predicate DigitsFrom(s: string, i: nat) {
    forall k :: i <= k < |s| ==> IsDigit(s[k])
  }

  /** The seven alternatives of the port expression, in its order. */
  predicate IsValidPort(s: string) {
    || (1 <= |s| <= 4 && InRange(s, 0, '1', '9') && DigitsFrom(s, 1))
    || s == "0"
    || (|s| == 5 && InRange(s, 0, '1', '5') && DigitsFrom(s, 1))
    || (|s| == 5 && s[0] == '6' && InRange(s, 1, '0', '4') && DigitsFrom(s, 2))
    || (|s| == 5 && s[0] == '6' && s[1] == '5' && InRange(s, 2, '0', '4') && DigitsFrom(s, 3))
    || (|s| == 5 && s[..3] == "655" && InRange(s, 3, '0', '2') && DigitsFrom(s, 4))
    || (|s| == 5 && s[..4] == "6553" && InRange(s, 4, '0', '5'))
  }

  lemma ValueOfFive(s: string)
    requires |s| == 5
    ensures Value(s) == 10000 * DigitValue(s[0]) + 1000 * DigitValue(s[1]) + 100 * DigitValue(s[2]) + 10 * DigitValue(s[3]) + DigitValue(s[4])
  {
    assert s[..4][..3] == s[..3] && s[..3][..2] == s[..2] && s[..2][..1] == s[..1] && s[..1][..0] == "";
    assert Value(s[..1]) == DigitValue(s[0]);
    assert Value(s[..2]) == 10 * Value(s[..1]) + DigitValue(s[1]);
    assert Value(s[..3]) == 10 * Value(s[..2]) + DigitValue(s[2]);
    assert Value(s[..4]) == 10 * Value(s[..3]) + DigitValue(s[3]);
  }

  function Pow10(n: nat): nat {
    if n == 0 then 1 else 10 * Pow10(n - 1)
  }

  lemma {:induction false} ValueByLength(s: string)
    requires AllDigits(s)
    ensures 0 <= Value(s) < Pow10(|s|)
    ensures s != "" && s[0] != '0' ==> Value(s) >= Pow10(|s| - 1)
  {
    if s != "" { ValueByLength(s[..|s| - 1]); }
  }

  lemma {:induction false} Pow10Grows(m: nat, n: nat)
    requires m <= n
    ensures Pow10(m) <= Pow10(n)
  {
    if m < n { Pow10Grows(m, n - 1); }
  }

  lemma PortOfFive(s: string)
    requires |s| == 5 && AllDigits(s) && s[0] != '0'
    ensures IsValidPort(s) <==> Value(s) <= 65535
  {
    ValueOfFive(s);
    assert s[..3] == [s[0], s[1], s[2]] && s[..4] == [s[0], s[1], s[2], s[3]];
  }

  lemma PortIsCanonical(s: string)
    requires IsValidPort(s)
    ensures Canonical(s) && |s| <= 5
  {
  }

  /** The expression accepts exactly the canonical numerals of 0 to 65535. */
  lemma PortIsNumeral(s: string)
    ensures IsValidPort(s) <==> Canonical(s) && Value(s) <= 65535
  {
    if IsValidPort(s) { PortIsCanonical(s); }
    if Canonical(s) {
      ValueByLength(s);
      if |s| == 5 {
        PortOfFive(s);
      } else if |s| < 5 {
        Pow10Grows(|s|, 4);
        assert Pow10(4) == 10 * Pow10(3) && Pow10(3) == 10 * Pow10(2) && Pow10(2) == 10 * Pow10(1);
        assert |s| == 1 && s[0] == '0' ==> s == "0";
      } else {
        Pow10Grows(5, |s| - 1);
        assert Pow10(5) == 10 * Pow10(4) && Pow10(4) == 10 * Pow10(3) && Pow10(3) == 10 * Pow10(2) && Pow10(2) == 10 * Pow10(1);
      }
    }
  }

  lemma PortIsDecimal(s: string)
    ensures IsValidPort(s) <==> exists n: nat :: n <= 65535 && s == Decimal(n)
  {
    PortIsNumeral(s);
    if IsValidPort(s) { CanonicalIsDecimal(s); }
    if n: nat :| n <= 65535 && s == Decimal(n) { DecimalIsCanonical(n); }
  }

  lemma PortIsAtoi(s: string)
    ensures IsValidPort(s) ==> IsAtoi(s)
  {
    PortIsNumeral(s);
  }

  // ----- the parser

  /** What stands before the first slash. */
  function Head(s: string): string {
    Split(s, '/')[0]
  }

  function FixSplitComponents(c: seq<string>): (r: seq<string>)
    requires c != []
    ensures r != []
  {
    if |c| <= 1 then c
    else if IsAtoi(Head(c[1])) then [Join(c[..2], ':')] + c[2..]
    else c
  }

  const EMPTY_REPO := "parsed repo was empty"
  const TOO_MANY_COLONS := "ref may only contain a single colon character (:) unless specifying a port number"
  const BAD_URL := "the repo does not parse as a URL"

  function ValidateRepo(r: Reference, url: UrlCheck): Option<string> {
    if r.repo == "" then Some(EMPTY_REPO)
    else if !url(r.repo) then Some(BAD_URL)
    else None
  }

  function ValidateNumColons(r: Reference): Option<string> {
    if ':' in r.tag then Some(TOO_MANY_COLONS)
    else
      var parts := Split(r.repo, ':');
      var last := |parts| - 1;
      if 1 < last then Some(TOO_MANY_COLONS)
      else if 0 < last && !IsValidPort(Head(parts[last])) then Some(TOO_MANY_COLONS)
      else None
  }

  function Validate(r: Reference, url: UrlCheck): Option<string> {
    if ValidateRepo(r, url).Some? then ValidateRepo(r, url) else ValidateNumColons(r)
  }

  function ParseReference(s: string, url: UrlCheck): Result<Reference> {
    if s == "" then Err(EMPTY_REPO)
    else
      var c := FixSplitComponents(Split(s, ':'));
      if |c| > 3 then Err(TOO_MANY_COLONS)
      else
        var ref :=
          if |c| == 1 then Reference("", c[0])
          else if |c| == 2 then Reference(c[1], c[0])
          else Reference(c[2], Join(c[..2], ':'));
        match Validate(ref, url)
        case None => Ok(ref)
        case Some(e) => Err(e)
  }

  // ----- the references there are

  /** host, host:port or host:port/path, with a canonical port. */
  ghost predicate HostPortPath(repo: string, host: string, port: nat, path: string) {
    && repo == host + ":" + Decimal(port) + path
    && port <= 65535 && ':' !in host && ':' !in path && (path == "" || path[0] == '/')
  }

  ghost predicate HasPort(repo: string) {
    exists host, port: nat, path :: HostPortPath(repo, host, port, path)
  }

  ghost predicate IntegerThenPath(s: string, number: string, path: string) {
    s == number + path && Integer64(number) && (path == "" || path[0] == '/')
  }

  /** The text is an integer, or begins with one and goes on with a slash. */
  ghost predicate StartsWithInteger(s: string) {
    exists number, path :: IntegerThenPath(s, number, path)
  }

  /** The references the parser can produce, said without the parser. */
  ghost predicate WellFormed(r: Reference, url: UrlCheck) {
    && r.repo != "" && url(r.repo) && ':' !in r.tag
    && (HasPort(r.repo) || (':' !in r.repo && !StartsWithInteger(r.tag)))
  }

  /** The ways to write a reference: its full name, or with a colon too many when it has no tag. */
  ghost predicate Writes(s: string, r: Reference) {
    s == r.FullName() || (r.tag == "" && s == r.repo + ":")
  }

  // ----- heads and ports

  lemma HeadOf(h: string, path: string)
    requires '/' !in h && (path == "" || path[0] == '/')
    ensures Head(h + path) == h
  {
    if path == "" {
      assert h + path == h;
      SplitNone(h, '/');
    } else {
      assert h + path == h + ['/'] + path[1..];
      SplitAt(h, '/', path[1..]);
    }
  }

  lemma SplitTwo(a: string, b: string)
    requires ':' !in a && ':' !in b
    ensures Split(a + ":" + b, ':') == [a, b]
  {
    SplitAt(a, ':', b);
    SplitNone(b, ':');
  }

  lemma SplitThree(a: string, b: string, c: string)
    requires ':' !in a && ':' !in b && ':' !in c
    ensures Split(a + ":" + b + ":" + c, ':') == [a, b, c]
  {
    SplitTwo(b, c);
    SplitAt(a, ':', b + ":" + c);
    assert a + ":" + b + ":" + c == a + [':'] + (b + ":" + c);
  }

  lemma JoinFew(c: seq<string>)
    ensures |c| == 2 ==> Join(c, ':') == c[0] + ":" + c[1]
    ensures |c| == 3 ==> Join(c, ':') == c[0] + ":" + c[1] + ":" + c[2]
  {
  }

  /** What follows the head: nothing, or a path that starts with the slash. */
  lemma PathAfterHead(rest: string) returns (path: string)
    requires ':' !in rest
    ensures rest == Head(rest) + path && ':' !in path && (path == "" || path[0] == '/')
  {
    SplitHead(rest, '/');
    path := rest[|Head(rest)|..];
  }

  lemma IntegerHasNoSlash(s: string)
    requires Integer64(s)
    ensures '/' !in s
  {
    var sign, digits :| Writes64(s, sign, digits);
  }

  lemma HeadIsInteger(s: string)
    requires ':' !in s
    ensures IsAtoi(Head(s)) <==> StartsWithInteger(s)
  {
    AtoiIff(Head(s));
    if IsAtoi(Head(s)) {
      var path := PathAfterHead(s);
      assert IntegerThenPath(s, Head(s), path);
    }
    if number, path :| IntegerThenPath(s, number, path) {
      IntegerHasNoSlash(number);
      HeadOf(number, path);
    }
  }

  /** host:rest has a port just when what stands before the first slash of rest is one. */
  lemma PortOfRest(host: string, rest: string)
    requires ':' !in host && ':' !in rest && IsValidPort(Head(rest))
    ensures HasPort(host + ":" + rest)
  {
    var path := PathAfterHead(rest);
    PortIsDecimal(Head(rest));
    var port: nat :| port <= 65535 && Head(rest) == Decimal(port);
    assert host + ":" + (Decimal(port) + path) == host + ":" + Decimal(port) + path;
    assert HostPortPath(host + ":" + rest, host, port, path);
  }

  lemma RestOfPort(repo: string) returns (host: string, rest: string)
    requires HasPort(repo)
    ensures repo == host + ":" + rest && ':' !in host && ':' !in rest && IsValidPort(Head(rest))
  {
    var h, port: nat, path :| HostPortPath(repo, h, port, path);
    DecimalIsCanonical(port);
    host, rest := h, Decimal(port) + path;
    assert host + ":" + rest == repo;
    HeadOf(Decimal(port), path);
    PortIsDecimal(Decimal(port));
  }

  lemma PortNeedsColon(repo: string)
    ensures HasPort(repo) ==> ':' in repo
  {
    if HasPort(repo) {
      var host, rest := RestOfPort(repo);
      assert repo[|host|] == ':';
    }
  }

  // ----- what the parser accepts

  /** Both the integer test and the port expression see the same part, so three components never pass. */
  lemma ThreeComponentsFail(s: string, url: UrlCheck)
    requires s != "" && |FixSplitComponents(Split(s, ':'))| == 3
    ensures ParseReference(s, url).Err?
  {
    var c := Split(s, ':');
    SplitParts(s, ':');
    if IsAtoi(Head(c[1])) {
      assert FixSplitComponents(c)[..2] == [Join(c[..2], ':'), c[2]];
      JoinFew(c[..2]);
      JoinFew([Join(c[..2], ':'), c[2]]);
      SplitThree(c[0], c[1], c[2]);
    } else {
      JoinFew(c[..2]);
      SplitTwo(c[0], c[1]);
      PortIsAtoi(Head(c[1]));
    }
  }

  lemma ParseIsSound(s: string, url: UrlCheck)
    requires ParseReference(s, url).Ok?
    ensures var r := ParseReference(s, url).value; WellFormed(r, url) && Writes(s, r)
  {
    var c, r := Split(s, ':'), ParseReference(s, url).value;
    SplitParts(s, ':');
    JoinFew(c);
    if |FixSplitComponents(c)| == 3 { ThreeComponentsFail(s, url); }
    if |c| >= 2 && IsAtoi(Head(c[1])) {
      JoinFew(c[..2]);
      SplitTwo(c[0], c[1]);
      PortOfRest(c[0], c[1]);
      assert r.repo == c[0] + ":" + c[1];
    } else {
      assert r.repo == c[0];
      HeadIsInteger(r.tag);
    }
  }

  lemma ParseIsComplete(s: string, r: Reference, url: UrlCheck)
    requires WellFormed(r, url) && Writes(s, r)
    ensures ParseReference(s, url) == Ok(r)
  {
    if HasPort(r.repo) {
      var host, rest := RestOfPort(r.repo);
      PortIsAtoi(Head(rest));
      SplitTwo(host, rest);
      JoinFew([host, rest]);
      if s != r.repo {
        assert s == host + ":" + rest + ":" + r.tag;
        SplitThree(host, rest, r.tag);
        assert [host, rest, r.tag][..2] == [host, rest];
      } else {
        assert [host, rest][..2] == [host, rest];
      }
    } else {
      SplitNone(r.repo, ':');
      if s != r.repo {
        assert s == r.repo + ":" + r.tag;
        SplitTwo(r.repo, r.tag);
        HeadIsInteger(r.tag);
      }
    }
  }

  /**
    The acceptance law of the parser over all strings: it returns r for s exactly when r is well formed and
    s writes r.
  */
  lemma ParseIff(s: string, r: Reference, url: UrlCheck)
    ensures ParseReference(s, url) == Ok(r) <==> WellFormed(r, url) && Writes(s, r)
  {
    if ParseReference(s, url) == Ok(r) { ParseIsSound(s, url); }
    if WellFormed(r, url) && Writes(s, r) { ParseIsComplete(s, r, url); }
  }

  /** The common case: repo:tag means that tag of that repo exactly if the tag does not start with an integer. */
  lemma ParseTagged(repo: string, tag: string, url: UrlCheck)
    requires ':' !in repo && ':' !in tag
    ensures ParseReference(repo + ":" + tag, url) == Ok(Reference(tag, repo)) <==>
            repo != "" && url(repo) && !StartsWithInteger(tag)
  {
    ParseIff(repo + ":" + tag, Reference(tag, repo), url);
    PortNeedsColon(repo);
  }

  /** "parsed repo was empty" is said of nothing, and of a tag without a repo; an integer there is taken for a port instead. */
  lemma EmptyRepoIff(s: string, url: UrlCheck)
    ensures ParseReference(s, url) == Err("parsed repo was empty") <==>
            s == "" || (s[0] == ':' && ':' !in s[1..] && !StartsWithInteger(s[1..]))
  {
    if s != "" {
      var c := Split(s, ':');
      SplitParts(s, ':');
      JoinFew(c);
      if s[0] == ':' && ':' !in s[1..] {
        assert s == "" + ":" + s[1..];
        SplitTwo("", s[1..]);
        HeadIsInteger(s[1..]);
        JoinFew(["", s[1..]]);
        assert ["", s[1..]][..2] == ["", s[1..]];
      }
    }
  }

  /** What the parser returned is found again under its full name. */
  lemma RoundTrip(s: string, r: Reference, url: UrlCheck)
    requires ParseReference(s, url) == Ok(r)
    ensures ParseReference(r.FullName(), url) == Ok(r)
  {
    ParseIff(s, r, url);
    ParseIff(r.FullName(), r, url);
  }

  lemma FullNameInjective(r1: Reference, r2: Reference, url: UrlCheck)
    requires WellFormed(r1, url) && WellFormed(r2, url) && r1.FullName() == r2.FullName()
    ensures r1 == r2
  {
    ParseIff(r1.FullName(), r1, url);
    ParseIff(r1.FullName(), r2, url);
  }
}
