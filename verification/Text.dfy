/** The few string operations of Go's `strings` package that the models need. */
module Text {

  /** `unicode.IsSpace` */
  predicate IsSpace(c: char) {
    var n := c as int;
    || 9 <= n <= 13 || n == 0x20 || n == 0x85 || n == 0xA0 || n == 0x1680 || 0x2000 <= n <= 0x200a
    || n == 0x2028 || n == 0x2029 || n == 0x202f || n == 0x205f || n == 0x3000
  }

  predicate NoSpace(s: string) {
    forall i | 0 <= i < |s| :: !IsSpace(s[i])
  }

  function TrimLeft(s: string): string {
    if s != "" && IsSpace(s[0]) then TrimLeft(s[1..]) else s
  }

  function TrimRight(s: string): string {
    if s != "" && IsSpace(s[|s| - 1]) then TrimRight(s[..|s| - 1]) else s
  }

  /** `strings.TrimSpace` */
  function TrimSpace(s: string): string {
    TrimRight(TrimLeft(s))
  }

  lemma {:induction false} TrimLeftMeans(s: string) returns (i: nat)
    ensures i <= |s| && TrimLeft(s) == s[i..] && (forall k | 0 <= k < i :: IsSpace(s[k])) && (i < |s| ==> !IsSpace(s[i]))
    decreases |s|
  {
    if s != "" && IsSpace(s[0]) {
      i := TrimLeftMeans(s[1..]);
      i := i + 1;
    } else {
      i := 0;
    }
  }

  lemma {:induction false} TrimRightMeans(s: string) returns (j: nat)
    ensures j <= |s| && TrimRight(s) == s[..j] && (forall k | j <= k < |s| :: IsSpace(s[k])) && (j > 0 ==> !IsSpace(s[j - 1]))
    decreases |s|
  {
    if s != "" && IsSpace(s[|s| - 1]) {
      j := TrimRightMeans(s[..|s| - 1]);
    } else {
      j := |s|;
    }
  }

  /** Trimming takes away white space at both ends, all of it, and nothing else. */
  lemma TrimMeans(s: string) returns (i: nat, j: nat)
    ensures i <= j <= |s| && TrimSpace(s) == s[i..j]
    ensures (forall k | 0 <= k < i :: IsSpace(s[k])) && (forall k | j <= k < |s| :: IsSpace(s[k]))
    ensures i < j ==> !IsSpace(s[i]) && !IsSpace(s[j - 1])
  {
    i := TrimLeftMeans(s);
    var n := TrimRightMeans(s[i..]);
    j := i + n;
    assert s[i..][..n] == s[i..j];
    forall k | j <= k < |s| ensures IsSpace(s[k]) {
      assert s[i..][k - i] == s[k];
    }
  }

  /** `strings.Split(s, "\n")` */
  function Lines(s: string): (lines: seq<string>)
    ensures |lines| >= 1
  {
    if s == "" then [""]
    else
      var front, c := Lines(s[..|s| - 1]), s[|s| - 1];
      if c == '\n' then front + [""] else front[..|front| - 1] + [front[|front| - 1] + [c]]
  }

  lemma {:induction false} LinesAppend(s: string, v: string)
    requires forall i | 0 <= i < |v| :: v[i] != '\n'
    ensures var lines := Lines(s);
            Lines(s + v) == lines[..|lines| - 1] + [lines[|lines| - 1] + v]
    decreases |v|
  {
    var lines := Lines(s);
    if v == "" {
      assert s + v == s && lines[|lines| - 1] + v == lines[|lines| - 1];
    } else {
      var front, c := v[..|v| - 1], v[|v| - 1];
      LinesAppend(s, front);
      assert (s + v)[..|s + v| - 1] == s + front;
      assert (lines[|lines| - 1] + front) + [c] == lines[|lines| - 1] + v;
    }
  }

  /** The lines that are not blank, trimmed. */
  function NonBlank(lines: seq<string>): seq<string> {
    if lines == [] then []
    else
      var last := TrimSpace(lines[|lines| - 1]);
      NonBlank(lines[..|lines| - 1]) + (if last != "" then [last] else [])
  }

  /** A log with one entry per line. */
  function LogText(entries: seq<string>): string {
    if entries == [] then "" else LogText(entries[..|entries| - 1]) + entries[|entries| - 1] + "\n"
  }

  /** An entry that survives being written to a log and read back. */
  predicate CleanEntry(v: string) {
    v != "" && NoSpace(v)
  }

  lemma {:induction false} LogLines(entries: seq<string>)
    requires forall i | 0 <= i < |entries| :: CleanEntry(entries[i])
    ensures Lines(LogText(entries)) == entries + [""]
    decreases |entries|
  {
    if entries == [] {
      assert Lines("") == [""];
    } else {
      var front, v := entries[..|entries| - 1], entries[|entries| - 1];
      LogLines(front);
      assert forall i | 0 <= i < |v| :: v[i] != '\n';
      LinesAppend(LogText(front), v);
      var s := LogText(front) + v;
      assert Lines(s) == front + ["" + v];
      assert "" + v == v && front + [v] == entries;
      assert LogText(entries)[..|LogText(entries)| - 1] == s;
    }
  }

  lemma {:induction false} NonBlankClean(entries: seq<string>)
    requires forall i | 0 <= i < |entries| :: CleanEntry(entries[i])
    ensures NonBlank(entries) == entries && NonBlank(entries + [""]) == entries
    decreases |entries|
  {
    assert (entries + [""])[..|entries|] == entries && TrimSpace("") == "";
    if entries != [] {
      NonBlankClean(entries[..|entries| - 1]);
      assert TrimSpace(entries[|entries| - 1]) == entries[|entries| - 1];
    }
  }

  /** Round trip: reading a log of clean entries gives back the entries, in order. */
  lemma LogRoundTrip(entries: seq<string>)
    requires forall i | 0 <= i < |entries| :: CleanEntry(entries[i])
    ensures NonBlank(Lines(LogText(entries))) == entries
  {
    LogLines(entries);
    NonBlankClean(entries);
  }

  predicate SlashFree(s: string) {
    forall i | 0 <= i < |s| :: s[i] != '/'
  }

  lemma SplitAtSlash(a: string, x: string, b: string, y: string)
    requires SlashFree(a) && SlashFree(b) && a + "/" + x == b + "/" + y
    ensures a == b && x == y
  {
    var s := a + "/" + x;
    assert s[|a|] == '/' && s[|b|] == '/';
    assert forall i | 0 <= i < |a| :: s[i] == a[i] != '/';
    assert forall i | 0 <= i < |b| :: s[i] == b[i] != '/';
    assert |a| == |b|;
    assert s[..|a|] == a && s[..|b|] == b;
    assert s[|a| + 1..] == x && s[|b| + 1..] == y;
  }
}
