/** env.go: the `.env` line format and the loop that applies it line by line.
    Reading the file and setting process variables are replaced by a list of lines in
    and an environment map out. */
module Env {
  import opened Wrappers

  /** Go's `unicode.IsSpace`, which `strings.TrimSpace` uses. */
  predicate IsSpace(c: char)
  {
    c == '\t' || c == '\n' || c == '\U{000B}' || c == '\U{000C}' || c == '\r' || c == ' '
    || c == '\U{0085}' || c == '\U{00A0}' || c == '\U{1680}'
    || ('\U{2000}' <= c <= '\U{200A}')
    || c == '\U{2028}' || c == '\U{2029}' || c == '\U{202F}' || c == '\U{205F}' || c == '\U{3000}'
  }

  /** The cut set of `strings.Trim(value, "\"'")`. */
  predicate IsQuote(c: char)
  {
    c == '"' || c == '\''
  }

  /** Drop every leading character satisfying `cut`. */
  function TrimLeft(s: string, cut: char -> bool): string
  {
    if s != [] && cut(s[0]) then TrimLeft(s[1..], cut) else s
  }

  /** Drop every trailing character satisfying `cut`. */
  function TrimRight(s: string, cut: char -> bool): string
  {
    if s != [] && cut(s[|s| - 1]) then TrimRight(s[..|s| - 1], cut) else s
  }

  /** `strings.Trim`/`strings.TrimSpace`: drop leading and trailing characters in the
      cut set. */
  function Trim(s: string, cut: char -> bool): string
  {
    TrimRight(TrimLeft(s, cut), cut)
  }

  /** What trimming removes: the result is the infix `s[i..j]`, everything cut off
      is in the cut set, and the result neither starts nor ends with a cut character. */
  lemma {:induction false} TrimShape(s: string, cut: char -> bool) returns (i: nat, j: nat)
    ensures i <= j <= |s| && Trim(s, cut) == s[i..j]
    ensures forall k :: 0 <= k < i ==> cut(s[k])
    ensures forall k :: j <= k < |s| ==> cut(s[k])
    ensures Trim(s, cut) != [] ==> !cut(Trim(s, cut)[0]) && !cut(Trim(s, cut)[|Trim(s, cut)| - 1])
  {
    i := LeftShape(s, cut);
    var t := s[i..];
    var j' := RightShape(t, cut);
    j := i + j';
    assert t[..j'] == s[i..j];
    forall k | j <= k < |s| ensures cut(s[k]) {
      assert s[k] == t[k - i];
    }
  }

  lemma {:induction false} LeftShape(s: string, cut: char -> bool) returns (i: nat)
    ensures i <= |s| && TrimLeft(s, cut) == s[i..]
    ensures forall k :: 0 <= k < i ==> cut(s[k])
    ensures TrimLeft(s, cut) != [] ==> !cut(TrimLeft(s, cut)[0])
  {
    if s != [] && cut(s[0]) {
      var i' := LeftShape(s[1..], cut);
      i := i' + 1;
      assert s[1..][i'..] == s[i..];
    } else {
      i := 0;
    }
  }

  lemma {:induction false} RightShape(s: string, cut: char -> bool) returns (j: nat)
    ensures j <= |s| && TrimRight(s, cut) == s[..j]
    ensures forall k :: j <= k < |s| ==> cut(s[k])
    ensures TrimRight(s, cut) != [] ==> !cut(TrimRight(s, cut)[|TrimRight(s, cut)| - 1])
  {
    if s != [] && cut(s[|s| - 1]) {
      j := RightShape(s[..|s| - 1], cut);
      assert s[..|s| - 1][..j] == s[..j];
    } else {
      j := |s|;
    }
  }

  /** The position of the first `c` in `s`, if any. */
  function IndexOf(s: string, c: char): (r: Option<nat>)
    ensures r.Some? ==> r.value < |s| && s[r.value] == c && c !in s[..r.value]
    ensures r.None? ==> c !in s
  {
    if s == [] then None
    else if s[0] == c then Some(0)
    else match IndexOf(s[1..], c)
      case None => None
      case Some(i) => (assert s[..i + 1] == [s[0]] + s[1..][..i]; Some(i + 1))
  }

  /** One `.env` line's effect: a key and value, or nothing for a blank line, a line
      whose raw text starts with `#` (checked before any trimming), or a line without
      `=`. The line is split at its first `=` only, so the value may contain `=`; key
      and value are trimmed of white space, then every leading and trailing quote is
      removed from the value. */
  function ParseLine(line: string): (r: Option<(string, string)>)
    ensures r.None? <==> line == [] || line[0] == '#' || '=' !in line
  {
    if line == [] || line[0] == '#' then None
    else match IndexOf(line, '=')
      case None => None
      case Some(i) =>
        var key := Trim(line[..i], IsSpace);
        var value := Trim(Trim(line[i + 1..], IsSpace), IsQuote);
        Some((key, value))
  }

  /** What an assignment line gives: the line is split at its first `=`, so the key
      contains no `=` while the value may; the key is the text before that `=` and the
      value the text after it, both without surrounding white space, and the value
      also without surrounding quotes. */
  lemma ParseLineFields(line: string) returns (i: nat)
    requires ParseLine(line).Some?
    ensures i < |line| && line[i] == '=' && '=' !in line[..i]
    ensures ParseLine(line).value.0 == Trim(line[..i], IsSpace)
    ensures ParseLine(line).value.1 == Trim(Trim(line[i + 1..], IsSpace), IsQuote)
    ensures '=' !in ParseLine(line).value.0
    ensures var key := ParseLine(line).value.0;
      key != [] ==> !IsSpace(key[0]) && !IsSpace(key[|key| - 1])
    ensures var value := ParseLine(line).value.1;
      value != [] ==> !IsQuote(value[0]) && !IsQuote(value[|value| - 1])
  {
    i := IndexOf(line, '=').value;
    var a, b := TrimShape(line[..i], IsSpace);
    var key := ParseLine(line).value.0;
    assert key == line[..i][a..b];
    assert forall x :: x in key ==> x in line[..i];
    var c, d := TrimShape(Trim(line[i + 1..], IsSpace), IsQuote);
  }

  /** Whether `os.Setenv(key, value)` accepts the pair, as its Unix implementation
      decides: the key is non-empty and holds neither `=` nor NUL, and the value holds
      no NUL. */
  predicate SetenvAccepts(key: string, value: string)
  {
    key != [] && '=' !in key && '\0' !in key && '\0' !in value
  }

  /** The error `LoadEnvFromFile` returns for a pair `os.Setenv` refuses. */
  const SetenvError := Error("set env: setenv: invalid argument")

  /** Line `line` parses to a pair that `os.Setenv` refuses. */
  predicate Rejected(line: string)
  {
    ParseLine(line).Some? && !SetenvAccepts(ParseLine(line).value.0, ParseLine(line).value.1)
  }

  /** The environment and the error after processing `lines` in file order: every
      accepted pair is set, and the first refused pair ends the scan with an error,
      keeping what was set before it. */
  function Loaded(env: map<string, string>, lines: seq<string>): (r: (map<string, string>, Option<Error>))
    ensures r.1.Some? ==> r.1 == Some(SetenvError)
    ensures env.Keys <= r.0.Keys
  {
    if lines == [] then (env, None)
    else
      var prev := Loaded(env, lines[..|lines| - 1]);
      if prev.1.Some? then prev
      else match ParseLine(lines[|lines| - 1])
        case None => prev
        case Some((k, v)) => if SetenvAccepts(k, v) then (prev.0[k := v], None) else (prev.0, Some(SetenvError))
  }

  /** Once an error has occurred, later lines change nothing. */
  lemma {:induction false} LoadedStops(env: map<string, string>, p: seq<string>, q: seq<string>)
    requires Loaded(env, p).1.Some?
    ensures Loaded(env, p + q) == Loaded(env, p)
  {
    if q != [] {
      var n := |q| - 1;
      assert (p + q)[..|p + q| - 1] == p + q[..n];
      LoadedStops(env, p, q[..n]);
    } else {
      assert p + q == p;
    }
  }

  /** Without a refused pair the scan sets every parsed pair in order and succeeds. */
  lemma {:induction false} LoadedAllAccepted(env: map<string, string>, lines: seq<string>)
    requires forall i :: 0 <= i < |lines| ==> !Rejected(lines[i])
    ensures Loaded(env, lines) == (Applied(env, lines), None)
  {
    if lines != [] {
      var p := lines[..|lines| - 1];
      assert forall i :: 0 <= i < |p| ==> p[i] == lines[i];
      LoadedAllAccepted(env, p);
    }
  }

  /** With a refused pair the scan stops with `SetenvError` at the first refused line,
      having set exactly the pairs of the lines before it. */
  lemma LoadedFirstRejected(env: map<string, string>, lines: seq<string>, i: nat)
    requires i < |lines| && Rejected(lines[i])
    requires forall j :: 0 <= j < i ==> !Rejected(lines[j])
    ensures Loaded(env, lines) == (Applied(env, lines[..i]), Some(SetenvError))
  {
    var p := lines[..i];
    assert forall j :: 0 <= j < |p| ==> p[j] == lines[j];
    LoadedAllAccepted(env, p);
    assert lines[..i + 1][..i] == p;
    LoadedStops(env, lines[..i + 1], lines[i + 1..]);
    assert lines[..i + 1] + lines[i + 1..] == lines;
  }

  /** The scanner loop of `LoadEnvFromFile`: each line, in order, that parses sets its
      key to its value; other lines are skipped; the first pair `os.Setenv` refuses
      stops the loop with an error, and the variables set before it stay set. */
  method LoadEnvLines(lines: seq<string>, env: map<string, string>) returns (r: map<string, string>, err: Option<Error>)
    ensures (r, err) == Loaded(env, lines)
  {
    r := env;
    for n := 0 to |lines|
      invariant (r, None) == Loaded(env, lines[..n])
    {
      assert lines[..n + 1][..n] == lines[..n];
      var parsed := ParseLine(lines[n]);
      if parsed.Some? {
        var (key, value) := parsed.value;
        if !SetenvAccepts(key, value) {
          LoadedStops(env, lines[..n + 1], lines[n + 1..]);
          assert lines[..n + 1] + lines[n + 1..] == lines;
          return r, Some(SetenvError);
        }
        r := r[key := value];
      }
    }
    assert lines[..|lines|] == lines;
    return r, None;
  }

  /** The environment after applying every parsed line of `lines` to `env` in order. */
  function Applied(env: map<string, string>, lines: seq<string>): (r: map<string, string>)
    ensures env.Keys <= r.Keys
  {
    if lines == [] then env
    else
      var prev := Applied(env, lines[..|lines| - 1]);
      match ParseLine(lines[|lines| - 1])
      case None => prev
      case Some((k, v)) => prev[k := v]
  }

  /** Line `line` assigns key `k`. */
  predicate Assigns(line: string, k: string)
  {
    ParseLine(line).Some? && ParseLine(line).value.0 == k
  }

  /** A key is set after the scan iff it was set before or some line assigns it. */
  lemma {:induction false} AppliedKeys(env: map<string, string>, lines: seq<string>, k: string)
    ensures k in Applied(env, lines) <==> k in env || exists i :: 0 <= i < |lines| && Assigns(lines[i], k)
  {
    if lines != [] {
      var n := |lines| - 1;
      var p := lines[..n];
      AppliedKeys(env, p, k);
      forall i | 0 <= i < n ensures p[i] == lines[i] {
      }
    }
  }

  /** Later lines win: the value of a key is the one from the last line that assigns it. */
  lemma {:induction false} AppliedLastWins(env: map<string, string>, lines: seq<string>, k: string, i: nat)
    requires i < |lines| && Assigns(lines[i], k)
    requires forall j :: i < j < |lines| ==> !Assigns(lines[j], k)
    ensures k in Applied(env, lines) && Applied(env, lines)[k] == ParseLine(lines[i]).value.1
  {
    var n := |lines| - 1;
    var p := lines[..n];
    if i < n {
      forall j | i < j < |p| ensures !Assigns(p[j], k) {
        assert p[j] == lines[j];
      }
      AppliedLastWins(env, p, k, i);
    }
  }

  /** A key no line assigns keeps its prior value. */
  lemma {:induction false} AppliedUntouched(env: map<string, string>, lines: seq<string>, k: string)
    requires k in env
    requires forall i :: 0 <= i < |lines| ==> !Assigns(lines[i], k)
    ensures k in Applied(env, lines) && Applied(env, lines)[k] == env[k]
  {
    if lines != [] {
      var n := |lines| - 1;
      var p := lines[..n];
      forall i | 0 <= i < |p| ensures !Assigns(p[i], k) {
        assert p[i] == lines[i];
      }
      AppliedUntouched(env, p, k);
    }
  }
}
