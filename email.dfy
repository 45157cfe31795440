/** The contact form's e-mail check, the regular expression
    `^[^\s@]+@[^\s@]+\.[^\s@]+$`, written as string predicates rather than as
    a regular-expression engine. */
module Email {
  import opened Wrappers
  import opened Text

  /** The character class `[^\s@]`. */
  predicate Allowed(c: char) {
    !IsWhitespace(c) && c != '@'
  }

  /** `s` matches `[^\s@]*`. */
  predicate AllAllowed(s: string) {
    forall k :: 0 <= k < |s| ==> Allowed(s[k])
  }

  /** What the pattern means, read off its three groups: `s` splits at an
      `@` (position `i`) and a later `.` (position `j`) into three non-empty
      runs of `[^\s@]`, anchored at both ends. */
  ghost predicate PatternMatches(s: string) {
    exists i, j :: SplitsAt(s, i, j)
  }

  ghost predicate SplitsAt(s: string, i: int, j: int) {
    0 < i && i + 1 < j && j + 1 < |s| && s[i] == '@' && s[j] == '.'
    && AllAllowed(s[..i]) && AllAllowed(s[i + 1..j]) && AllAllowed(s[j + 1..])
  }

  /** The same language described by its shape: no white space anywhere,
      exactly one `@`, not at the front, and after it a `.` that is neither
      the first nor the last character of the part after the `@`. */
  ghost predicate EmailShape(s: string) {
    (forall k :: 0 <= k < |s| ==> !IsWhitespace(s[k]))
    && exists i :: OnlyAtSign(s, i) && 0 < i && exists j :: i + 1 < j < |s| - 1 && s[j] == '.'
  }

  /** Position `i` holds an `@` and no other position does. */
  ghost predicate OnlyAtSign(s: string, i: int) {
    0 <= i < |s| && s[i] == '@' && forall k :: 0 <= k < |s| && s[k] == '@' ==> k == i
  }

  /** The first position of `c` in `s`, if any. */
  function IndexOf(s: string, c: char): (r: Option<nat>)
    ensures r.None? ==> forall k :: 0 <= k < |s| ==> s[k] != c
    ensures r.Some? ==>
              r.value < |s| && s[r.value] == c && forall k :: 0 <= k < r.value ==> s[k] != c
  {
    if s == [] then None
    else if s[0] == c then Some(0)
    else match IndexOf(s[1..], c)
      case None => None
      case Some(i) => Some(i + 1)
  }

  /** The part after the `@`: at least three characters of `[^\s@]` with a
      `.` strictly inside. */
  predicate DomainOk(d: string) {
    3 <= |d| && AllAllowed(d) && '.' in d[1..|d| - 1]
  }

  /** `emailRegex.test(s)`, computed by locating the `@` and checking the two
      parts on either side of it. */
  predicate IsEmail(s: string) {
    match IndexOf(s, '@')
    case None => false
    case Some(i) => 0 < i && AllAllowed(s[..i]) && DomainOk(s[i + 1..])
  }

  /** Every string the computed check accepts matches the pattern. */
  lemma IsEmailSound(s: string)
    requires IsEmail(s)
    ensures PatternMatches(s)
  {
    var i := IndexOf(s, '@').value;
    var d := s[i + 1..];
    var m :| 0 <= m < |d[1..|d| - 1]| && d[1..|d| - 1][m] == '.';
    var j := i + 2 + m;
    assert s[j] == '.';
    assert s[i + 1..j] == d[..m + 1];
    assert s[j + 1..] == d[m + 2..];
    assert SplitsAt(s, i, j);
  }

  /** Every string the pattern matches passes the computed check. */
  lemma IsEmailComplete(s: string)
    requires PatternMatches(s)
    ensures IsEmail(s)
  {
    var i, j :| SplitsAt(s, i, j);
    forall k | 0 <= k < i ensures s[k] != '@' {
      assert s[..i][k] == s[k];
    }
    assert IndexOf(s, '@') == Some(i);
    var d := s[i + 1..];
    forall k | 0 <= k < |d| ensures Allowed(d[k]) {
      if k < j - i - 1 {
        assert d[k] == s[i + 1..j][k];
      } else if k > j - i - 1 {
        assert d[k] == s[j + 1..][k - (j - i)];
      }
    }
    assert d[1..|d| - 1][j - i - 2] == '.';
    assert DomainOk(d);
  }

  /** The computed check accepts exactly the strings the pattern matches. */
  lemma IsEmailIffPattern(s: string)
    ensures IsEmail(s) <==> PatternMatches(s)
  {
    if IsEmail(s) {
      IsEmailSound(s);
    }
    if PatternMatches(s) {
      IsEmailComplete(s);
    }
  }

  /** The pattern accepts exactly the strings of the described shape. */
  lemma PatternIffShape(s: string)
    ensures PatternMatches(s) <==> EmailShape(s)
  {
    if PatternMatches(s) {
      var i, j :| SplitsAt(s, i, j);
      forall k | 0 <= k < |s| ensures !IsWhitespace(s[k]) && (s[k] == '@' ==> k == i) {
        if k < i {
          assert s[k] == s[..i][k];
        } else if i < k < j {
          assert s[k] == s[i + 1..j][k - i - 1];
        } else if j < k {
          assert s[k] == s[j + 1..][k - j - 1];
        }
      }
      assert OnlyAtSign(s, i);
    }
    if EmailShape(s) {
      var i :| OnlyAtSign(s, i) && 0 < i && exists j :: i + 1 < j < |s| - 1 && s[j] == '.';
      var j :| i + 1 < j < |s| - 1 && s[j] == '.';
      assert forall k :: 0 <= k < |s| && k != i ==> Allowed(s[k]);
      assert AllAllowed(s[..i]);
      assert AllAllowed(s[i + 1..j]);
      assert AllAllowed(s[j + 1..]);
      assert SplitsAt(s, i, j);
    }
  }

  /** A string the pattern accepts is never blank: it has no white space and
      at least five characters. */
  lemma EmailIsNotBlank(s: string)
    requires IsEmail(s)
    ensures !Blank(s)
  {
  }

  /** `a@b.c` is accepted. */
  lemma ShortAddressAccepted()
    ensures IsEmail("a@b.c")
  {
    assert IndexOf("a@b.c", '@') == Some(1) by {
      assert IndexOf("a@b.c"[1..], '@') == Some(0);
    }
    assert "a@b.c"[2..][1..2] == ".";
  }

  /** `a@b` (no dot after the `@`), `a@.c` (the dot right after the `@`),
      `a` and the empty string are rejected. */
  lemma MalformedAddressesRejected()
    ensures !IsEmail("a@b") && !IsEmail("a@.c") && !IsEmail("a") && !IsEmail("")
  {
  }

  /** The pattern is tested on the untrimmed value, so a leading space makes
      an otherwise well-formed address fail even though it is not blank. */
  lemma LeadingSpaceRejected()
    ensures !IsEmail(" a@b.c") && !Blank(" a@b.c")
  {
  }
}
