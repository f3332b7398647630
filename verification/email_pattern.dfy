/** The registration form's e-mail pattern,
    `/^[A-Z0-9._%+-]+@[A-Z0-9.-]+\.[A-Z]{2,}$/i`: its language stated as a
    split of the address, a scanning recogniser, and the proof that the two
    agree. The `i` flag makes `A-Z` match ASCII letters of either case and
    nothing else. */
module EmailPattern {
  import opened Common

  predicate IsAsciiLetter(c: char) {
    'A' <= c <= 'Z' || 'a' <= c <= 'z'
  }

  predicate IsDigit(c: char) {
    '0' <= c <= '9'
  }

  /** `[A-Z0-9._%+-]` under the `i` flag. */
  predicate IsLocalChar(c: char) {
    IsAsciiLetter(c) || IsDigit(c) || c == '.' || c == '_' || c == '%' || c == '+' || c == '-'
  }

  /** `[A-Z0-9.-]` under the `i` flag. */
  predicate IsDomainChar(c: char) {
    IsAsciiLetter(c) || IsDigit(c) || c == '.' || c == '-'
  }

  predicate AllLocal(s: string) {
    forall k :: 0 <= k < |s| ==> IsLocalChar(s[k])
  }

  predicate AllDomain(s: string) {
    forall k :: 0 <= k < |s| ==> IsDomainChar(s[k])
  }

  predicate AllLetters(s: string) {
    forall k :: 0 <= k < |s| ==> IsAsciiLetter(s[k])
  }

  /** `s` reads as local part, `@` at `at`, host, `.` at `dot`, top-level
      label: the four pieces the pattern's groups match. */
  ghost predicate SplitsAt(s: string, at: int, dot: int) {
    && 1 <= at && at + 2 <= dot && dot + 3 <= |s|
    && s[at] == '@' && s[dot] == '.'
    && AllLocal(s[..at]) && AllDomain(s[at + 1..dot]) && AllLetters(s[dot + 1..])
  }

  /** The pattern's language. */
  ghost predicate MatchesPattern(s: string) {
    exists at, dot :: SplitsAt(s, at, dot)
  }

  /** The first occurrence of `c` in `s`. */
  function IndexOf(s: string, c: char): (r: Option<nat>)
    ensures r.None? ==> c !in s
    ensures r.Some? ==> r.value < |s| && s[r.value] == c && c !in s[..r.value]
  {
    if s == [] then None
    else if s[0] == c then Some(0)
    else match IndexOf(s[1..], c)
      case None => None
      case Some(k) => assert s[..k + 1] == [s[0]] + s[1..][..k]; Some(k + 1)
  }

  /** The last occurrence of `c` in `s`. */
  function LastIndexOf(s: string, c: char): (r: Option<nat>)
    ensures r.None? ==> c !in s
    ensures r.Some? ==> r.value < |s| && s[r.value] == c && c !in s[r.value + 1..]
  {
    if s == [] then None
    else if s[|s| - 1] == c then Some(|s| - 1)
    else match LastIndexOf(s[..|s| - 1], c)
      case None => None
      case Some(k) => assert s[k + 1..] == s[..|s| - 1][k + 1..] + [s[|s| - 1]]; Some(k)
  }

  /** An occurrence with none before it is the first one. */
  lemma IndexOfIs(s: string, c: char, i: nat)
    requires i < |s| && s[i] == c && c !in s[..i]
    ensures IndexOf(s, c) == Some(i)
  {
    var r := IndexOf(s, c);
    assert forall j :: 0 <= j < r.value ==> s[..r.value][j] == s[j];
    assert forall j :: 0 <= j < i ==> s[..i][j] == s[j];
  }

  /** An occurrence with none after it is the last one. */
  lemma LastIndexOfIs(s: string, c: char, i: nat)
    requires i < |s| && s[i] == c && c !in s[i + 1..]
    ensures LastIndexOf(s, c) == Some(i)
  {
    var r := LastIndexOf(s, c);
    assert forall j :: r.value < j < |s| ==> s[r.value + 1..][j - r.value - 1] == s[j];
    assert forall j :: i < j < |s| ==> s[i + 1..][j - i - 1] == s[j];
  }

  lemma LocalHasNoAt(s: string)
    requires AllLocal(s)
    ensures '@' !in s
  {
    forall p | 0 <= p < |s|
      ensures s[p] != '@'
    {
      assert IsLocalChar(s[p]);
    }
  }

  lemma DomainHasNoAt(s: string)
    requires AllDomain(s)
    ensures '@' !in s
  {
    forall p | 0 <= p < |s|
      ensures s[p] != '@'
    {
      assert IsDomainChar(s[p]);
    }
  }

  lemma LettersHaveNoAtOrDot(s: string)
    requires AllLetters(s)
    ensures '@' !in s && '.' !in s
  {
    forall p | 0 <= p < |s|
      ensures s[p] != '@' && s[p] != '.'
    {
      assert IsAsciiLetter(s[p]);
    }
  }

  /** The recogniser: split at the first `@` and at the last `.` after it,
      then check each piece's character class and length. */
  predicate IsValidEmail(s: string) {
    match IndexOf(s, '@')
    case None => false
    case Some(at) => at >= 1 && AllLocal(s[..at]) && IsValidHost(s[at + 1..])
  }

  /** The part after the `@`: host, last `.`, a label of two or more letters. */
  predicate IsValidHost(host: string) {
    match LastIndexOf(host, '.')
    case None => false
    case Some(k) => k >= 1 && |host| - k - 1 >= 2 && AllDomain(host[..k]) && AllLetters(host[k + 1..])
  }

  /** Everything the recogniser accepts is in the pattern's language. */
  lemma RecogniserIsSound(s: string)
    requires IsValidEmail(s)
    ensures MatchesPattern(s)
  {
    var at := IndexOf(s, '@').value;
    var host := s[at + 1..];
    var k := LastIndexOf(host, '.').value;
    var dot := at + 1 + k;
    assert s[at + 1..dot] == host[..k];
    assert s[dot + 1..] == host[k + 1..];
    assert SplitsAt(s, at, dot);
  }

  /** Everything in the pattern's language is accepted: no local or host
      character is `@`, so the split's `@` is the first one, and no letter is
      `.`, so the split's `.` is the last one after the `@`. */
  lemma RecogniserIsComplete(s: string, at: int, dot: int)
    requires SplitsAt(s, at, dot)
    ensures IsValidEmail(s)
  {
    LocalHasNoAt(s[..at]);
    IndexOfIs(s, '@', at);
    var host := s[at + 1..];
    var k := dot - at - 1;
    assert host[k + 1..] == s[dot + 1..];
    LettersHaveNoAtOrDot(s[dot + 1..]);
    LastIndexOfIs(host, '.', k);
    assert host[..k] == s[at + 1..dot];
  }

  /** The recogniser accepts exactly the pattern's language. */
  lemma RecogniserMatchesPattern(s: string)
    ensures IsValidEmail(s) <==> MatchesPattern(s)
  {
    if IsValidEmail(s) {
      RecogniserIsSound(s);
    }
    if MatchesPattern(s) {
      var at, dot :| SplitsAt(s, at, dot);
      RecogniserIsComplete(s, at, dot);
    }
  }

  /** An accepted address holds exactly one `@` and ends in `.` followed by
      at least two letters. */
  lemma AcceptedShape(s: string)
    requires IsValidEmail(s)
    ensures multiset(s)['@'] == 1
    ensures exists dot :: 0 <= dot < |s| - 2 && s[dot] == '.' && AllLetters(s[dot + 1..])
  {
    RecogniserIsSound(s);
    var at, dot :| SplitsAt(s, at, dot);
    LocalHasNoAt(s[..at]);
    DomainHasNoAt(s[at + 1..dot]);
    LettersHaveNoAtOrDot(s[dot + 1..]);
    assert s == s[..at] + [s[at]] + s[at + 1..dot] + [s[dot]] + s[dot + 1..];
    assert multiset(s) == multiset(s[..at]) + multiset([s[at]]) + multiset(s[at + 1..dot])
                          + multiset([s[dot]]) + multiset(s[dot + 1..]);
  }

  /** The match ignores case. */
  lemma MixedCaseAccepted()
    ensures IsValidEmail("a@B.Co")
  {
    var e := "a@B.Co";
    assert e[..1] == ['a'] && e[2..3] == ['B'] && e[4..] == ['C', 'o'];
    assert SplitsAt(e, 1, 3);
    RecogniserIsComplete(e, 1, 3);
  }

  /** The host may consist of dots only. */
  lemma DotsOnlyHostAccepted()
    ensures IsValidEmail("a@..co")
  {
    var e := "a@..co";
    assert e[..1] == ['a'] && e[2..3] == ['.'] && e[4..] == ['c', 'o'];
    assert SplitsAt(e, 1, 3);
    RecogniserIsComplete(e, 1, 3);
  }

  /** A one-letter top-level label is refused: no split leaves room for it. */
  lemma ShortLabelRefused()
    ensures !IsValidEmail("a@b.c")
  {
    RecogniserMatchesPattern("a@b.c");
    assert forall at, dot :: SplitsAt("a@b.c", at, dot) ==> at + 2 <= dot && dot + 3 <= 5 && 1 <= at;
  }
}
