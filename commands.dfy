/**
 * The results of the external commands the daemon runs, and the two small
 * predicates it computes from them: whether a systemd service is active
 * (`_is_service_active`) and whether a ping succeeded (`ping_target`).
 *
 * A command either raised an exception before it produced a result
 * (`Raised`: the program is missing, permission was denied, ...) or it
 * completed with an exit code and captured output.
 */
module Commands {

  datatype CommandResult =
    | Raised
    | Completed(returncode: int, stdout: string, stderr: string)

  /** The characters Python's `str.isspace` (and so `str.strip` and the
      regular-expression class `\s`) treats as white space. */
  predicate IsSpace(c: char) {
    || c == ' ' || c == '\t' || c == '\n' || c == '\r' || c == '\U{B}' || c == '\U{C}'
    || ('\U{1C}' <= c <= '\U{1F}')
    || c == '\U{85}' || c == '\U{A0}' || c == '\U{1680}'
    || ('\U{2000}' <= c <= '\U{200A}')
    || c == '\U{2028}' || c == '\U{2029}' || c == '\U{202F}' || c == '\U{205F}' || c == '\U{3000}'
  }

  predicate AllSpace(s: string) {
    forall k :: 0 <= k < |s| ==> IsSpace(s[k])
  }

  /** The number of white-space characters at the front of `s`. */
  function LeadingSpace(s: string): (n: nat)
    ensures n <= |s|
    ensures AllSpace(s[..n])
    ensures n < |s| ==> !IsSpace(s[n])
  {
    if s == [] || !IsSpace(s[0]) then 0 else 1 + LeadingSpace(s[1..])
  }

  /** The number of white-space characters at the back of `s`. */
  function TrailingSpace(s: string): (n: nat)
    ensures n <= |s|
    ensures AllSpace(s[|s| - n..])
    ensures n < |s| ==> !IsSpace(s[|s| - 1 - n])
  {
    if s == [] || !IsSpace(s[|s| - 1]) then 0 else 1 + TrailingSpace(s[..|s| - 1])
  }

  /** Python's `str.strip()` without arguments: the infix of `s` left when
      the white space at both ends is removed. */
  function Strip(s: string): (r: string)
    ensures r == [] || (!IsSpace(r[0]) && !IsSpace(r[|r| - 1]))
    ensures LeadingSpace(s) + |r| <= |s|
    ensures r == s[LeadingSpace(s)..LeadingSpace(s) + |r|]
    ensures AllSpace(s[LeadingSpace(s) + |r|..])
  {
    var l := LeadingSpace(s);
    var t := s[l..];
    var n := TrailingSpace(t);
    var r := t[..|t| - n];
    assert r == s[l..l + |r|];
    assert s[l + |r|..] == t[|t| - n..];
    assert r != [] ==> r[0] == s[l] && r[|r| - 1] == t[|t| - 1 - n];
    r
  }

  /** Leading white space stops at the first character of the word. */
  lemma {:induction false} LeadingSpaceOfPadded(pre: string, rest: string)
    requires AllSpace(pre)
    requires rest == [] || !IsSpace(rest[0])
    ensures LeadingSpace(pre + rest) == |pre|
  {
    if pre != [] {
      assert (pre + rest)[1..] == pre[1..] + rest;
      LeadingSpaceOfPadded(pre[1..], rest);
    } else {
      assert pre + rest == rest;
    }
  }

  /** Trailing white space stops at the last character of the word. */
  lemma {:induction false} TrailingSpaceOfPadded(rest: string, post: string)
    requires AllSpace(post)
    requires rest == [] || !IsSpace(rest[|rest| - 1])
    ensures TrailingSpace(rest + post) == |post|
  {
    if post != [] {
      var t := rest + post;
      assert t[..|t| - 1] == rest + post[..|post| - 1];
      TrailingSpaceOfPadded(rest, post[..|post| - 1]);
    } else {
      assert rest + post == rest;
    }
  }

  /** Stripping a word padded with white space gives the word back:
      the white space removed by `Strip` is exactly the padding. */
  lemma {:induction false} StripPadded(pre: string, w: string, post: string)
    requires AllSpace(pre) && AllSpace(post)
    requires w == [] || (!IsSpace(w[0]) && !IsSpace(w[|w| - 1]))
    ensures Strip(pre + w + post) == w
  {
    var s := pre + w + post;
    if w == [] {
      assert s == pre + post;
      assert AllSpace(pre + post) by {
        forall k | 0 <= k < |s| ensures IsSpace(s[k]) {
          if k < |pre| { assert s[k] == pre[k]; } else { assert s[k] == post[k - |pre|]; }
        }
      }
      LeadingSpaceOfPadded(pre + post, []);
      assert pre + post + [] == pre + post;
    } else {
      assert s == pre + (w + post);
      LeadingSpaceOfPadded(pre, w + post);
      assert s[|pre|..] == w + post;
      TrailingSpaceOfPadded(w, post);
    }
  }

  /** `_is_service_active`: `systemctl is-active <name>` printed `active`,
      possibly surrounded by white space (its exit code is not looked at).
      Any exception while running the query counts as inactive. */
  function IsServiceActive(r: CommandResult): bool {
    r.Completed? && Strip(r.stdout) == "active"
  }

  /** `s` is the word `w` with only white space before and after it. */
  predicate PaddedWord(s: string, pre: string, w: string, post: string) {
    AllSpace(pre) && AllSpace(post) && s == pre + w + post
  }

  /** What `Strip` removed from an output that strips to `w` is padding. */
  lemma {:induction false} StrippedIsPadded(s: string, w: string)
    requires Strip(s) == w
    ensures var l := LeadingSpace(s); PaddedWord(s, s[..l], w, s[l + |w|..])
  {
    var l := LeadingSpace(s);
    assert s == s[..l] + s[l..l + |w|] + s[l + |w|..];
  }

  /** Output that strips to `w` is `w` padded with white space. */
  lemma {:induction false} StripMeansPadded(s: string, w: string)
    requires Strip(s) == w
    ensures exists pre, post :: PaddedWord(s, pre, w, post)
  {
    StrippedIsPadded(s, w);
    var l := LeadingSpace(s);
    assert PaddedWord(s, s[..l], w, s[l + |w|..]);
  }

  /** Output that is `w` padded with white space strips to `w`. */
  lemma {:induction false} PaddedMeansStrip(s: string, w: string)
    requires w == [] || (!IsSpace(w[0]) && !IsSpace(w[|w| - 1]))
    requires exists pre, post :: PaddedWord(s, pre, w, post)
    ensures Strip(s) == w
  {
    var pre, post :| PaddedWord(s, pre, w, post);
    StripPadded(pre, w, post);
  }

  /** A service is active exactly when the query completed and its output
      is the word `active` with nothing but white space around it. */
  lemma {:induction false} ServiceActiveIff(r: CommandResult)
    ensures IsServiceActive(r) <==>
      r.Completed? && exists pre, post :: PaddedWord(r.stdout, pre, "active", post)
  {
    if r.Completed? {
      var w := "active";
      if Strip(r.stdout) == w {
        StripMeansPadded(r.stdout, w);
      }
      if exists pre, post :: PaddedWord(r.stdout, pre, w, post) {
        assert w[0] == 'a' && w[|w| - 1] == 'e';
        PaddedMeansStrip(r.stdout, w);
      }
    }
  }

  /** `systemctl is-active` prints `active` on a line of its own for a
      running service. */
  lemma {:induction false} SystemctlActive(rc: int, err: string)
    ensures IsServiceActive(Completed(rc, "active\n", err))
  {
    assert "active\n" == [] + "active" + "\n";
    StripPadded([], "active", "\n");
  }

  /** ... and `inactive` for a stopped one, which does not count as active. */
  lemma {:induction false} SystemctlInactive(rc: int, err: string)
    ensures !IsServiceActive(Completed(rc, "inactive\n", err))
  {
    assert "inactive\n" == [] + "inactive" + "\n";
    StripPadded([], "inactive", "\n");
  }

  /** The characters at which Python's `str.splitlines` ends a line. */
  predicate IsLineBoundary(c: char) {
    || c == '\n' || c == '\r' || c == '\U{B}' || c == '\U{C}'
    || c == '\U{1C}' || c == '\U{1D}' || c == '\U{1E}'
    || c == '\U{85}' || c == '\U{2028}' || c == '\U{2029}'
  }

  /** The length of the first line of `s`, without its terminator. */
  function LineLength(s: string): (n: nat)
    ensures n <= |s|
    ensures forall k :: 0 <= k < n ==> !IsLineBoundary(s[k])
    ensures n < |s| ==> IsLineBoundary(s[n])
  {
    if s == [] || IsLineBoundary(s[0]) then 0 else 1 + LineLength(s[1..])
  }

  /** Python's `str.splitlines()`: the lines of `s` without their
      terminators (`\r\n` ends one line); a final terminator does not start
      an empty last line. */
  function SplitLines(s: string): (ls: seq<string>)
    ensures ls == [] <==> s == []
    ensures forall k :: 0 <= k < |ls| ==> forall c :: c in ls[k] ==> !IsLineBoundary(c)
    decreases |s|
  {
    if s == [] then []
    else
      var n := LineLength(s);
      if n == |s| then [s]
      else
        var skip := if s[n] == '\r' && n + 1 < |s| && s[n + 1] == '\n' then 2 else 1;
        [s[..n]] + SplitLines(s[n + skip..])
  }

  /** `ping_target`: the ping command exited with code 0. When debug
      logging is on, the code also takes the last line of the output for a
      summary; on an empty output that indexing raises, and the exception
      handler turns the result into a failure. Any exception from the
      command itself is a failure too. */
  function PingTarget(r: CommandResult, debugLog: bool): (ok: bool)
    ensures ok <==> r.Completed? && r.returncode == 0 && (!debugLog || r.stdout != "")
  {
    match r
    case Raised => false
    case Completed(rc, out, _) =>
      if rc != 0 then false
      else if !debugLog then true
      else
        var lines := SplitLines(out);
        |lines| > 0
  }

  /** With debug logging off, the ping result is the exit status alone. */
  lemma {:induction false} PingIgnoresOutputWithoutDebug(rc: int, out: string, err: string)
    ensures PingTarget(Completed(rc, out, err), false) <==> rc == 0
  {
  }
}
