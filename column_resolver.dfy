/** Choosing the column whose cells are matched against subject codes
    (run.py lines 36-45): a configured column wins, otherwise the first header
    that the pattern `id|subject` finds, case-insensitively, anywhere in. */
module ColumnResolver {
  import opened Base

  /** Whether `c` matches the lower-case ASCII pattern letter `p` under Python's
      IGNORECASE for text patterns: `c` lower-cases to `p`, or is one of the
      extra case equivalents the regular-expression engine adds (dotless i for
      `i`, long s for `s`). */
  predicate CharMatchesCI(c: char, p: char)
  {
    || c == p
    || ('a' <= p <= 'z' && c as int == p as int - 32)
    || (p == 'i' && (c == '\U{130}' || c == '\U{131}'))
    || (p == 's' && c == '\U{17F}')
  }

  /** `pat` occurs case-insensitively in `s` starting at index `i`. */
  predicate MatchesAt(s: string, pat: string, i: int)
  {
    0 <= i && i + |pat| <= |s| &&
    forall j | 0 <= j < |pat| :: CharMatchesCI(s[i + j], pat[j])
  }

  /** A regular-expression search for the literal `pat`, case-insensitively. */
  predicate ContainsCI(s: string, pat: string)
  {
    exists i | 0 <= i <= |s| - |pat| :: MatchesAt(s, pat, i)
  }

  /** The heuristic `re.search(r'id|subject', name, re.IGNORECASE)`. */
  predicate IdOrSubject(name: string)
  {
    ContainsCI(name, "id") || ContainsCI(name, "subject")
  }

  /** ASCII lower-casing of one character. */
  function AsciiLower(c: char): char
  {
    if 'A' <= c <= 'Z' then (c as int + 32) as char else c
  }

  /** ASCII lower-casing of a string, character by character. */
  function LowerAscii(s: string): (r: string)
    ensures |r| == |s| && forall i | 0 <= i < |s| :: r[i] == AsciiLower(s[i])
  {
    seq(|s|, i requires 0 <= i < |s| => AsciiLower(s[i]))
  }

  /** Exactly the characters that match each letter of `id|subject`: the
      letter and its ASCII upper case, plus dotted capital I and dotless i for
      `i` and long s for `s`; no other character matches. */
  lemma CaseEquivalents()
    ensures forall c :: CharMatchesCI(c, 'i') <==> c in {'i', 'I', '\U{130}', '\U{131}'}
    ensures forall c :: CharMatchesCI(c, 's') <==> c in {'s', 'S', '\U{17F}'}
    ensures forall c, p | p in {'d', 'u', 'b', 'j', 'e', 'c', 't'} ::
              CharMatchesCI(c, p) <==> c == p || c as int == p as int - 32
  {
  }

  /** Matching a lower-case ASCII pattern ignores the ASCII case of the
      searched name: lower-casing the name first changes nothing. */
  lemma {:induction false} ContainsCIIgnoresAsciiCase(s: string, pat: string)
    requires forall j | 0 <= j < |pat| :: 'a' <= pat[j] <= 'z'
    ensures ContainsCI(s, pat) <==> ContainsCI(LowerAscii(s), pat)
  {
    var l := LowerAscii(s);
    forall i | 0 <= i <= |s| - |pat| ensures MatchesAt(s, pat, i) <==> MatchesAt(l, pat, i) {
      forall j | 0 <= j < |pat| ensures CharMatchesCI(s[i + j], pat[j]) <==> CharMatchesCI(l[i + j], pat[j]) {
        assert l[i + j] == AsciiLower(s[i + j]);
      }
    }
    if ContainsCI(s, pat) {
      var i :| 0 <= i <= |s| - |pat| && MatchesAt(s, pat, i);
      assert MatchesAt(l, pat, i);
    }
    if ContainsCI(l, pat) {
      var i :| 0 <= i <= |l| - |pat| && MatchesAt(l, pat, i);
      assert MatchesAt(s, pat, i);
    }
  }

  /** The column heuristic ignores the ASCII case of a header name. */
  lemma IdOrSubjectIgnoresAsciiCase(name: string)
    ensures IdOrSubject(name) <==> IdOrSubject(LowerAscii(name))
  {
    ContainsCIIgnoresAsciiCase(name, "id");
    ContainsCIIgnoresAsciiCase(name, "subject");
  }

  /** Header `i` is the one the scan stops at: it matches and none before it does. */
  predicate IsFirstMatch(headers: seq<string>, i: int)
  {
    && 0 <= i < |headers|
    && IdOrSubject(headers[i])
    && forall j | 0 <= j < i :: !IdOrSubject(headers[j])
  }

  /** The scan over the headers in declared order, `for … break … else`. */
  function FirstMatching(headers: seq<string>): (r: Result<string, ImportError>)
    ensures r.Failure? ==> r.error == NoMatchColumn
  {
    if headers == [] then Failure(NoMatchColumn)
    else if IdOrSubject(headers[0]) then Success(headers[0])
    else FirstMatching(headers[1..])
  }

  /** The match column: the configured one when it is truthy (used verbatim,
      not checked against the headers), the scanned one otherwise. */
  function ResolveColumn(headers: seq<string>, configured: Option<string>): (r: Result<string, ImportError>)
    ensures Truthy(configured) ==> r == Success(configured.value)
    ensures !Truthy(configured) ==> r == FirstMatching(headers)
  {
    if Truthy(configured) then Success(configured.value) else FirstMatching(headers)
  }

  /** The scan chooses exactly the first matching header, and fails exactly
      when no header matches. */
  lemma {:induction false} FirstMatchingIsFirst(headers: seq<string>)
    ensures FirstMatching(headers).Success? <==> exists i | 0 <= i < |headers| :: IdOrSubject(headers[i])
    ensures FirstMatching(headers).Success? ==>
              exists i :: IsFirstMatch(headers, i) && headers[i] == FirstMatching(headers).value
  {
    if headers == [] {
    } else if IdOrSubject(headers[0]) {
      assert IsFirstMatch(headers, 0);
    } else {
      var tail := headers[1..];
      FirstMatchingIsFirst(tail);
      if FirstMatching(tail).Success? {
        var k :| IsFirstMatch(tail, k) && tail[k] == FirstMatching(tail).value;
        assert IsFirstMatch(headers, k + 1) by {
          forall j | 0 <= j < k + 1 ensures !IdOrSubject(headers[j]) {
            if j > 0 { assert headers[j] == tail[j - 1]; }
          }
        }
      } else {
        forall i | 0 <= i < |headers| ensures !IdOrSubject(headers[i]) {
          if i > 0 { assert headers[i] == tail[i - 1]; }
        }
      }
    }
  }

  /** The resolution step of run.py as the loop the source runs: a truthy
      configured column is returned without scanning; otherwise the headers are
      scanned in order and the scan stops at the first match. */
  method ResolveMatchColumn(headers: seq<string>, configured: Option<string>)
      returns (r: Result<string, ImportError>)
    ensures r == ResolveColumn(headers, configured)
    ensures r.Success? && !Truthy(configured) ==>
              exists i :: IsFirstMatch(headers, i) && headers[i] == r.value
    ensures r.Failure? <==> !Truthy(configured) && forall i | 0 <= i < |headers| :: !IdOrSubject(headers[i])
  {
    if Truthy(configured) {
      return Success(configured.value);
    }
    var i := 0;
    while i < |headers|
      invariant 0 <= i <= |headers|
      invariant forall j | 0 <= j < i :: !IdOrSubject(headers[j])
      invariant FirstMatching(headers) == FirstMatching(headers[i..])
    {
      if IdOrSubject(headers[i]) {
        assert IsFirstMatch(headers, i);
        return Success(headers[i]);
      }
      assert headers[i..][1..] == headers[i + 1..];
      i := i + 1;
    }
    FirstMatchingIsFirst(headers);
    r := Failure(NoMatchColumn);
  }

  /** The header list ["study_id", "age", "sex"] resolves to "study_id". */
  lemma StudyIdResolves()
    ensures ResolveColumn(["study_id", "age", "sex"], None) == Success("study_id")
  {
    assert MatchesAt("study_id", "id", 6);
  }

  /** The header list ["age", "sex"] has no match column. */
  lemma AgeSexDoesNotResolve()
    ensures ResolveColumn(["age", "sex"], None) == Failure(NoMatchColumn)
  {
    assert !ContainsCI("age", "id") by {
      assert !CharMatchesCI("age"[0], "id"[0]) && !CharMatchesCI("age"[1], "id"[0]);
    }
    assert !ContainsCI("sex", "id") by {
      assert !CharMatchesCI("sex"[0], "id"[0]) && !CharMatchesCI("sex"[1], "id"[0]);
    }
  }
}
