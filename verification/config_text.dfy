/** The text of .config files: escaping, lines, and the patterns that recognise assignments. */
module ConfigText {
  import opened Basics

  // ---------------------------------------------------------------------------------------------
  // Escaping

  /** s.replace(c, by) for a single character c. */
  function Replace(s: string, c: char, sub: string): string {
    if s == [] then [] else (if s[0] == c then sub else [s[0]]) + Replace(s[1..], c, sub)
  }

  /** Backslashes are doubled first, then quotes get a backslash. */
  function Escape(s: string): string { Replace(Replace(s, '\\', "\\\\"), '"', "\\\"") }

  /** A backslash followed by a character other than a newline is dropped. */
  function Unescape(s: string): string {
    if |s| < 2 then s
    else if s[0] == '\\' && s[1] != '\n' then [s[1]] + Unescape(s[2..])
    else [s[0]] + Unescape(s[1..])
  }

  function EscapedChar(c: char): string {
    if c == '\\' then "\\\\" else if c == '"' then "\\\"" else [c]
  }

  lemma {:induction false} Assoc(a: string, b: string, c: string)
    ensures a + (b + c) == (a + b) + c
  {
  }

  lemma {:induction false} ReplaceConcat(s: string, t: string, c: char, sub: string)
    ensures Replace(s + t, c, sub) == Replace(s, c, sub) + Replace(t, c, sub)
  {
    if s == [] {
      assert s + t == t;
    } else {
      ReplaceConcat(s[1..], t, c, sub);
      assert (s + t)[1..] == s[1..] + t;
      Assoc(if s[0] == c then sub else [s[0]], Replace(s[1..], c, sub), Replace(t, c, sub));
    }
  }

  /** The two passes of `Escape` act as one pass over the characters. */
  lemma {:induction false} EscapeStep(s: string)
    requires s != []
    ensures Escape(s) == EscapedChar(s[0]) + Escape(s[1..])
  {
    var head := if s[0] == '\\' then "\\\\" else [s[0]];
    var rest := Replace(s[1..], '\\', "\\\\");
    ReplaceConcat(head, rest, '"', "\\\"");
    if s[0] == '\\' {
      assert head == ['\\', '\\'];
      assert Replace(head[1..], '"', "\\\"") == ['\\'] + Replace(head[1..][1..], '"', "\\\"");
      assert Replace(head, '"', "\\\"") == "\\\\";
    } else {
      assert head[1..] == [];
      assert Replace(head, '"', "\\\"") == EscapedChar(s[0]);
    }
  }

  /** Reading back an escaped string gives the string. */
  lemma {:induction false} UnescapeEscape(s: string)
    ensures Unescape(Escape(s)) == s
  {
    if s != [] {
      hide Escape;
      EscapeStep(s);
      UnescapeEscape(s[1..]);
      var e, rest := EscapedChar(s[0]), Escape(s[1..]);
      if |e| == 2 {
        assert (e + rest)[2..] == rest;
      } else {
        assert (e + rest)[1..] == rest;
        if rest == [] { EscapeLength(s[1..]); }
      }
    }
  }

  lemma {:induction false} EscapeLength(s: string)
    ensures |Escape(s)| >= |s|
  {
    if s != [] { EscapeStep(s); EscapeLength(s[1..]); }
  }

  // ---------------------------------------------------------------------------------------------
  // Quoted and key literals

  /** The part of `s` before the first unescaped quote, if there is one. */
  function QuotedBody(s: string): Option<string> {
    if s == [] then None
    else if s[0] == '"' then Some("")
    else if s[0] == '\\' then
      if |s| >= 2 && s[1] != '\n' then
        var r :- QuotedBody(s[2..]); Some(s[..2] + r)
      else None
    else
      var r :- QuotedBody(s[1..]); Some(s[..1] + r)
  }

  function MatchString(s: string): Option<string> {
    if s != [] && s[0] == '"' then QuotedBody(s[1..]) else None
  }

  predicate IsWord(c: char) { 'a' <= c <= 'z' || 'A' <= c <= 'Z' || '0' <= c <= '9' || c == '_' }

  function MatchKey(s: string): string {
    if s != [] && IsWord(s[0]) then [s[0]] + MatchKey(s[1..]) else ""
  }

  predicate AllWord(s: string) { forall i :: 0 <= i < |s| ==> IsWord(s[i]) }

  lemma {:induction false} QuotedBodyEscape(s: string, t: string)
    ensures QuotedBody(Escape(s) + ['"'] + t) == Some(Escape(s))
  {
    var q := ['"'] + t;
    assert Escape(s) + ['"'] + t == Escape(s) + q;
    if s == [] {
      assert Escape(s) + q == q;
    } else {
      EscapeStep(s);
      QuotedBodyEscape(s[1..], t);
      var e, rest := EscapedChar(s[0]), Escape(s[1..]) + q;
      assert Escape(s[1..]) + ['"'] + t == rest;
      assert Escape(s) + q == e + rest;
      assert (e + rest)[|e|..] == rest && (e + rest)[..|e|] == e;
    }
  }

  /** The pattern for string values recognises a written string and returns what was escaped. */
  lemma {:induction false} StringRoundTrip(s: string)
    ensures var m := MatchString("\"" + Escape(s) + "\""); m.Some? && Unescape(m.value) == s
  {
    var t := "\"" + Escape(s) + "\"";
    assert t[1..] == Escape(s) + ['"'] + [];
    QuotedBodyEscape(s, []);
    UnescapeEscape(s);
  }

  lemma {:induction false} KeyRoundTrip(s: string)
    requires AllWord(s)
    ensures MatchKey(s) == s && Unescape(s) == s
  {
    if s != [] { KeyRoundTrip(s[1..]); }
  }

  // ---------------------------------------------------------------------------------------------
  // Lines

  predicate IsBreak(c: char) { c == '\n' || c == '\r' }

  predicate NoBreak(s: string) { forall i :: 0 <= i < |s| ==> !IsBreak(s[i]) }

  function FirstBreak(s: string): (k: nat)
    ensures k <= |s| && (forall i :: 0 <= i < k ==> !IsBreak(s[i])) && (k < |s| ==> IsBreak(s[k]))
  {
    if s == [] || IsBreak(s[0]) then 0 else 1 + FirstBreak(s[1..])
  }

  function Lines(s: string): seq<string>
    decreases |s|
  {
    var k := FirstBreak(s);
    if k == |s| then [s] else [s[..k]] + Lines(s[k + 1..])
  }

  lemma {:induction false} LinesCons(line: string, rest: string)
    requires NoBreak(line)
    ensures Lines(line + "\n" + rest) == [line] + Lines(rest)
  {
    var s := line + "\n" + rest;
    assert s[..|line|] == line && s[|line|] == '\n' && s[|line| + 1..] == rest;
    assert forall i :: 0 <= i < |line| ==> s[i] == line[i];
    assert FirstBreak(s) == |line|;
  }

  // ---------------------------------------------------------------------------------------------
  // Assignments

  predicate StartsWith(s: string, p: string) { |p| <= |s| && s[..|p|] == p }

  function IndexOf(s: string, c: char): (k: nat)
    ensures k <= |s| && (k < |s| ==> s[k] == c) && (forall i :: 0 <= i < k ==> s[i] != c)
  {
    if s == [] || s[0] == c then 0 else 1 + IndexOf(s[1..], c)
  }

  /** `<prefix><name>=<value>` */
  function MatchSet(prefix: string, line: string): Option<(string, string)> {
    if !StartsWith(line, prefix) then None
    else
      var r := line[|prefix|..];
      var k := IndexOf(r, '=');
      if 0 < k < |r| then Some((r[..k], r[k + 1..])) else None
  }

  /** `# <prefix><name> is not set` */
  function MatchUnset(prefix: string, line: string): Option<string> {
    var p := "# " + prefix;
    if !StartsWith(line, p) then None
    else
      var r := line[|p|..];
      var k := IndexOf(r, ' ');
      if 0 < k && StartsWith(r[k..], " is not set") then Some(r[..k]) else None
  }

  function SetLine(prefix: string, name: string, val: string): string { prefix + name + "=" + val }

  function UnsetLine(prefix: string, name: string): string { "# " + prefix + name + " is not set" }

  lemma {:induction false} IndexOfAt(s: string, c: char, k: nat)
    requires k < |s| && s[k] == c && forall i :: 0 <= i < k ==> s[i] != c
    ensures IndexOf(s, c) == k
  {
  }

  /** A name that can be read back: none of the characters that end a name in a .config line. */
  predicate IsName(s: string) { s != "" && forall i :: 0 <= i < |s| ==> s[i] != '=' && s[i] != ' ' && !IsBreak(s[i]) }

  lemma {:induction false} SetLineMatches(prefix: string, name: string, val: string)
    requires IsName(name)
    ensures MatchSet(prefix, SetLine(prefix, name, val)) == Some((name, val))
  {
    var line := SetLine(prefix, name, val);
    var r := name + "=" + val;
    assert line == prefix + r;
    assert line[..|prefix|] == prefix && line[|prefix|..] == r;
    IndexOfAt(r, '=', |name|);
    assert r[..|name|] == name && r[|name| + 1..] == val;
  }

  lemma {:induction false} UnsetLineMatches(prefix: string, name: string)
    requires IsName(name) && AllWord(prefix)
    ensures MatchUnset(prefix, UnsetLine(prefix, name)) == Some(name)
    ensures MatchSet(prefix, UnsetLine(prefix, name)) == None
  {
    var line, p, tail := UnsetLine(prefix, name), "# " + prefix, " is not set";
    var r := name + tail;
    assert line == p + r;
    assert line[..|p|] == p && line[|p|..] == r;
    IndexOfAt(r, ' ', |name|);
    assert r[..|name|] == name && r[|name|..] == tail;
    if StartsWith(line, prefix) {
      var q := line[|prefix|..];
      var k := IndexOf(q, '=');
      if 0 < k < |q| {
        assert line[|prefix| + k] == '=';
        NoEqualsIn(prefix, name, |prefix| + k);
      }
    }
  }

  lemma {:induction false} NoEqualsIn(prefix: string, name: string, j: nat)
    requires IsName(name) && AllWord(prefix) && j < |UnsetLine(prefix, name)|
    ensures UnsetLine(prefix, name)[j] != '='
  {
    var line := UnsetLine(prefix, name);
    assert line == "# " + (prefix + name) + " is not set";
    if j < 2 { assert line[j] == "# "[j]; }
    else if j < 2 + |prefix| { assert line[j] == prefix[j - 2]; assert IsWord(line[j]); }
    else if j < 2 + |prefix| + |name| { assert line[j] == name[j - 2 - |prefix|]; }
    else { assert line[j] == " is not set"[j - 2 - |prefix| - |name|]; }
  }

  // ---------------------------------------------------------------------------------------------
  // Comment lines

  /** An empty line, or one that starts with "# ". */
  predicate IsComment(s: string) { s == "" || (s[0] == '#' && (|s| == 1 || s[1] == ' ')) }

  /** Stripping takes away the end of the line only. */
  lemma {:induction false} RStripIs(s: string)
    ensures var r := RStrip(s); |r| <= |s| && r == s[..|r|] && forall k :: |r| <= k < |s| ==> IsSpace(s[k])
  {
    if s != [] && IsSpace(s[|s| - 1]) { RStripIs(s[..|s| - 1]); }
  }

  /** Whatever a comment assigns by the first pattern is not called by a name. */
  lemma {:induction false} CommentSetsNoName(prefix: string, s: string)
    requires IsComment(s) && AllWord(prefix)
    ensures var m := MatchSet(prefix, RStrip(s)); m.Some? ==> !IsName(m.value.0)
  {
    RStripIs(s);
    var line := RStrip(s);
    var m := MatchSet(prefix, line);
    assert line != "" ==> line[0] == '#';
    assert prefix != "" ==> IsWord(prefix[0]);
    if m.Some? && prefix == "" {
      assert line[|prefix|..] == line;
      assert |line| >= 2 && line[1] == ' ';
      assert m.value.0[1] == ' ';
    }
  }

  /** An end-of-menu comment never reads as "is not set". */
  lemma {:induction false} EndUnsetsNothing(prefix: string, title: string)
    requires AllWord(prefix)
    ensures MatchUnset(prefix, RStrip("# end of " + title)) == None
  {
    var s, p := "# end of " + title, "# " + prefix;
    assert s[..8] == "# end of" && s[5] == ' ' && s[6] == 'o' && s[7] == 'f';
    RStripIs(s);
    var line := RStrip(s);
    assert |line| >= 8;
    assert line[..8] == "# end of";
    EndUnsetsAt(line, prefix);
  }

  lemma {:induction false} StartsAt(s: string, p: string, k: nat)
    requires k < |p|
    ensures StartsWith(s, p) ==> s[k] == p[k]
  {
    if StartsWith(s, p) { assert s[..|p|][k] == s[k]; }
  }

  lemma {:induction false} EndUnsetsAt(line: string, prefix: string)
    requires AllWord(prefix) && |line| >= 8 && line[..8] == "# end of"
    ensures MatchUnset(prefix, line) == None
  {
    var p, head := "# " + prefix, line[..8];
    assert line[2] == head[2] && line[3] == head[3] && line[4] == head[4] && line[5] == head[5] && line[6] == head[6];
    assert |prefix| > 3 ==> IsWord(prefix[3]) && p[5] == prefix[3];
    if |p| > 5 { StartsAt(line, p, 5); }
    if StartsWith(line, p) && |p| <= 5 {
      var r := line[|p|..];
      var k := 5 - |p|;
      forall i | 0 <= i < k ensures r[i] != ' ' { assert r[i] == line[|p| + i]; }
      IndexOfAt(r, ' ', k);
      var tail := r[k..];
      assert tail[1] == line[6];
      StartsAt(tail, " is not set", 1);
    }
  }

  /** A quote gets a backslash, a backslash is doubled, other characters stay. */
  lemma {:induction false} EscapeOne(c: char, s: string)
    ensures Escape([c] + s) == (if c == '\\' then ['\\', '\\'] else if c == '"' then ['\\', '"'] else [c]) + Escape(s)
    ensures Escape("") == ""
  {
    EscapeStep([c] + s);
    assert ([c] + s)[1..] == s;
  }
}
