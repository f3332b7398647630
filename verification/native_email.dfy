/** The browser's own check of an `<input type="email">`: the HTML Living
    Standard's "valid e-mail address" (the Email state of the input element,
    section 4.10.5.1.5). A non-empty value that is not a valid address makes
    the control suffer from a type mismatch, and a form without `novalidate`
    is then not submitted: the browser shows its own message and no submit
    handler runs. */
module NativeEmail {
  import opened Common
  import EmailPattern

  /** `atext` of RFC 5322 section 3.2.3, which the local part draws from
      together with `.`. */
  predicate IsAtext(c: char) {
    EmailPattern.IsAsciiLetter(c) || EmailPattern.IsDigit(c)
    || c == '!' || c == '#' || c == '$' || c == '%' || c == '&' || c == '\'' || c == '*'
    || c == '+' || c == '-' || c == '/' || c == '=' || c == '?' || c == '^' || c == '_'
    || c == '`' || c == '{' || c == '|' || c == '}' || c == '~'
  }

  predicate IsLetDig(c: char) {
    EmailPattern.IsAsciiLetter(c) || EmailPattern.IsDigit(c)
  }

  predicate IsLocalPart(s: string) {
    |s| >= 1 && forall k :: 0 <= k < |s| ==> IsAtext(s[k]) || s[k] == '.'
  }

  /** A host label: 1 to 63 letters, digits and hyphens, starting and
      ending with a letter or digit. */
  predicate IsLabel(l: string) {
    && 1 <= |l| <= 63
    && IsLetDig(l[0]) && IsLetDig(l[|l| - 1])
    && forall k :: 0 <= k < |l| ==> IsLetDig(l[k]) || l[k] == '-'
  }

  /** One or more labels separated by single dots. */
  predicate IsDomain(d: string)
    decreases |d|
  {
    match EmailPattern.IndexOf(d, '.')
    case None => IsLabel(d)
    case Some(i) => IsLabel(d[..i]) && IsDomain(d[i + 1..])
  }

  /** A valid e-mail address: a local part, `@`, and a domain. Neither part
      can hold an `@`, so the split is at the first one. */
  predicate IsValidAddress(s: string) {
    match EmailPattern.IndexOf(s, '@')
    case None => false
    case Some(at) => IsLocalPart(s[..at]) && IsDomain(s[at + 1..])
  }

  /** The constraint the browser enforces before it lets the form submit:
      an empty value is not checked (the field carries no `required`
      attribute), any other value must be a valid address. */
  predicate TypeMismatch(value: string) {
    value != "" && !IsValidAddress(value)
  }

  /** A domain begins and ends with a letter or a digit and never holds two
      dots in a row: every label between dots is non-empty. */
  lemma {:induction false} DomainShape(d: string)
    requires IsDomain(d)
    ensures |d| >= 1 && IsLetDig(d[0]) && IsLetDig(d[|d| - 1])
    ensures forall k :: 0 <= k < |d| - 1 && d[k] == '.' ==> d[k + 1] != '.'
    decreases |d|
  {
    match EmailPattern.IndexOf(d, '.')
    case None =>
      assert forall k :: 0 <= k < |d| ==> d[k] != '.';
    case Some(i) =>
      var rest := d[i + 1..];
      DomainShape(rest);
      assert d[0] == d[..i][0];
      assert d[|d| - 1] == rest[|rest| - 1];
      assert forall k :: 0 <= k < i ==> d[k] == d[..i][k] && d[k] != '.';
      forall k | i <= k < |d| - 1 && d[k] == '.'
        ensures d[k + 1] != '.'
      {
        if k == i {
          assert d[k + 1] == rest[0];
        } else {
          assert d[k] == rest[k - i - 1] && d[k + 1] == rest[k - i];
        }
      }
  }

  /** A value without `@` is refused. */
  lemma NoAtRefused(s: string)
    requires s != [] && '@' !in s
    ensures TypeMismatch(s)
  {
  }

  /** A host made of dots only, which the registration pattern admits, is
      refused: its first label is empty. */
  lemma DotsOnlyHostRefused()
    ensures TypeMismatch("a@..co")
  {
    var s := "a@..co";
    EmailPattern.IndexOfIs(s, '@', 1);
    var d := s[2..];
    assert d == "..co";
    EmailPattern.IndexOfIs(d, '.', 0);
  }

  /** A host without a dot is accepted; the registration pattern refuses it. */
  lemma SingleLabelHostAccepted()
    ensures IsValidAddress("a@b")
    ensures !EmailPattern.IsValidEmail("a@b")
  {
    var s := "a@b";
    EmailPattern.IndexOfIs(s, '@', 1);
    assert s[..1] == "a" && s[2..] == "b";
    assert '.' !in "b";
  }

  /** An address with a one-letter top-level label is accepted; the
      registration pattern refuses it. */
  lemma ShortLabelAccepted()
    ensures IsValidAddress("a@b.c")
    ensures !EmailPattern.IsValidEmail("a@b.c")
  {
    var s := "a@b.c";
    EmailPattern.IndexOfIs(s, '@', 1);
    var d := s[2..];
    assert s[..1] == "a" && d == "b.c";
    EmailPattern.IndexOfIs(d, '.', 1);
    assert d[..1] == "b" && d[2..] == "c";
    assert '.' !in "c";
    EmailPattern.ShortLabelRefused();
  }
}
