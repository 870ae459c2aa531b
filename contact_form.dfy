/** The contact form's submit handler: every field must be filled in, then the
    email must match `^[^\s@]+@[^\s@]+\.[^\s@]+$`. */
module ContactForm {

  /** ECMAScript `\s`: the WhiteSpace and LineTerminator code points. */
  predicate IsSpace(c: char)
  {
    c in {'\t', '\n', '\U{000B}', '\U{000C}', '\r', ' ', '\U{00A0}', '\U{1680}',
          '\U{2028}', '\U{2029}', '\U{202F}', '\U{205F}', '\U{3000}', '\U{FEFF}'} ||
    ('\U{2000}' <= c <= '\U{200A}')
  }

  /** A character the class `[^\s@]` accepts. */
  predicate PlainChar(c: char)
  {
    c != '@' && !IsSpace(c)
  }

  /** `[^\s@]+`: a non-empty run of plain characters. */
  predicate PlainRun(s: string)
  {
    |s| > 0 && forall k :: 0 <= k < |s| ==> PlainChar(s[k])
  }

  /** The email pattern read as the concatenation it is: an `@` at i and a `.`
      at j split the whole text into three plain runs. */
  predicate EmailPatternMatches(s: string)
  {
    exists i, j :: 0 <= i < j < |s| && s[i] == '@' && s[j] == '.' &&
      PlainRun(s[..i]) && PlainRun(s[i + 1..j]) && PlainRun(s[j + 1..])
  }

  predicate NoSpace(s: string)
  {
    forall k :: 0 <= k < |s| ==> !IsSpace(s[k])
  }

  /** A dot with text on both sides of it. */
  predicate DotInside(d: string)
  {
    |d| >= 3 && '.' in d[1..|d| - 1]
  }

  /** The same language described by what it asks of an address: no
      whitespace, exactly one `@`, text before it, and after it a `.` with
      text on both sides. */
  predicate WellFormedEmail(s: string)
  {
    NoSpace(s) && multiset(s)['@'] == 1 &&
    exists i :: 0 < i < |s| && s[i] == '@' && DotInside(s[i + 1..])
  }

  lemma NoAtCount(s: string)
    requires forall k :: 0 <= k < |s| ==> s[k] != '@'
    ensures multiset(s)['@'] == 0
  {
    assert '@' !in s;
  }

  /** Splitting at position i splits the count of `@`. */
  lemma AtCountSplit(s: string, i: int)
    requires 0 <= i < |s|
    ensures multiset(s)['@'] ==
      multiset(s[..i])['@'] + (if s[i] == '@' then 1 else 0) + multiset(s[i + 1..])['@']
  {
    assert s == s[..i] + [s[i]] + s[i + 1..];
  }

  lemma PatternGivesWellFormed(s: string, i: int, j: int)
    requires 0 <= i < j < |s| && s[i] == '@' && s[j] == '.'
    requires PlainRun(s[..i]) && PlainRun(s[i + 1..j]) && PlainRun(s[j + 1..])
    ensures WellFormedEmail(s)
  {
    forall k | 0 <= k < |s| ensures !IsSpace(s[k]) {
      if k < i {
        assert s[k] == s[..i][k];
      } else if i < k < j {
        assert s[k] == s[i + 1..j][k - i - 1];
      } else if j < k {
        assert s[k] == s[j + 1..][k - j - 1];
      }
    }
    AtCountSplit(s, i);
    NoAtCount(s[..i]);
    var rest := s[i + 1..];
    assert rest == s[i + 1..j] + [s[j]] + s[j + 1..];
    forall k | 0 <= k < |rest| ensures rest[k] != '@' {
      if k < j - i - 1 {
        assert rest[k] == s[i + 1..j][k];
      } else if k > j - i - 1 {
        assert rest[k] == s[j + 1..][k - (j - i)];
      }
    }
    NoAtCount(rest);
    var d := s[i + 1..];
    assert d[1..|d| - 1][j - i - 2] == '.';
    assert DotInside(d);
  }

  lemma WellFormedGivesPattern(s: string)
    requires WellFormedEmail(s)
    ensures EmailPatternMatches(s)
  {
    var i :| 0 < i < |s| && s[i] == '@' && DotInside(s[i + 1..]);
    var d := s[i + 1..];
    var inner := d[1..|d| - 1];
    var m :| 0 <= m < |inner| && inner[m] == '.';
    assert inner[m] == d[1 + m];
    var j := i + 2 + m;
    assert s[j] == d[1 + m];
    AtCountSplit(s, i);
    assert multiset(s[..i])['@'] == 0 && multiset(s[i + 1..])['@'] == 0;
    forall k | 0 <= k < |s| && k != i ensures PlainChar(s[k]) {
      assert !IsSpace(s[k]);
      if k < i {
        assert s[k] == s[..i][k];
        assert s[k] in multiset(s[..i]);
      } else {
        assert s[k] == s[i + 1..][k - i - 1];
        assert s[k] in multiset(s[i + 1..]);
      }
    }
    var local, host, top := s[..i], s[i + 1..j], s[j + 1..];
    forall k | 0 <= k < |local| ensures PlainChar(local[k]) {
      assert local[k] == s[k];
    }
    forall k | 0 <= k < |host| ensures PlainChar(host[k]) {
      assert host[k] == s[i + 1 + k];
    }
    forall k | 0 <= k < |top| ensures PlainChar(top[k]) {
      assert top[k] == s[j + 1 + k];
    }
  }

  /** The pattern accepts exactly the well-formed addresses. */
  lemma PatternIsWellFormed(s: string)
    ensures EmailPatternMatches(s) <==> WellFormedEmail(s)
  {
    if EmailPatternMatches(s) {
      var i, j :| 0 <= i < j < |s| && s[i] == '@' && s[j] == '.' &&
        PlainRun(s[..i]) && PlainRun(s[i + 1..j]) && PlainRun(s[j + 1..]);
      PatternGivesWellFormed(s, i, j);
    }
    if WellFormedEmail(s) {
      WellFormedGivesPattern(s);
    }
  }

  /** The outcome of a submission. */
  datatype Verdict = FillAllFields | InvalidEmail | Sent

  /** The submit handler's decision: an empty field is reported before the
      email is looked at; otherwise the email must match the pattern. */
  function Submit(name: string, email: string, message: string): (v: Verdict)
    ensures v == FillAllFields <==> name == [] || email == [] || message == []
    ensures v == Sent <==> name != [] && message != [] && WellFormedEmail(email)
  {
    PatternIsWellFormed(email);
    if name == [] || email == [] || message == [] then FillAllFields
    else if !EmailPatternMatches(email) then InvalidEmail
    else Sent
  }

  /** `a@b.c` is accepted. */
  lemma AcceptsShortAddress(s: string)
    requires s == "a@b.c"
    ensures EmailPatternMatches(s)
  {
    assert s[1] == '@' && s[3] == '.';
    assert s[..1] == "a" && s[2..3] == "b" && s[4..] == "c";
  }

  /** `a@.b` is rejected: nothing between the `@` and the dot. */
  lemma RejectsDotAfterAt(s: string)
    requires s == "a@.b"
    ensures !EmailPatternMatches(s)
  {
    PatternIsWellFormed(s);
  }

  /** `a@b.` is rejected: nothing after the dot. */
  lemma RejectsTrailingDot(s: string)
    requires s == "a@b."
    ensures !EmailPatternMatches(s)
  {
    PatternIsWellFormed(s);
  }

  /** `a b@c.d` is rejected: it holds a space. */
  lemma RejectsSpace(s: string)
    requires s == "a b@c.d"
    ensures !EmailPatternMatches(s)
  {
    PatternIsWellFormed(s);
    assert IsSpace(s[1]);
  }
}
