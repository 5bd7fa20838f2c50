/** How an original SSH command is shown: printable ASCII only, and never longer than a fixed limit. */
module SshFormat {

  const MAX_DISPLAYED_SSH_COMMAND_CHARS: nat := 1000

  const TRUNCATION_MARKER: string := "... [truncated]"

  predicate Printable(c: char) {
    ' ' <= c <= '~'
  }

  ghost predicate AllPrintable(s: string) {
    forall c :: c in s ==> Printable(c)
  }

  function HexDigit(n: nat): (c: char)
    requires n < 16
    ensures '0' <= c <= '9' || 'a' <= c <= 'f'
  {
    if n < 10 then '0' + n as char else 'a' + (n - 10) as char
  }

  function Hex(n: nat): (s: string)
    ensures s != "" && forall c :: c in s ==> '0' <= c <= '9' || 'a' <= c <= 'f'
  {
    if n < 16 then [HexDigit(n)] else Hex(n / 16) + [HexDigit(n % 16)]
  }

  function DigitValue(c: char): (v: int) {
    if c <= '9' then c as int - '0' as int else c as int - 'a' as int + 10
  }

  function HexValue(s: string): int {
    if s == "" then 0 else 16 * HexValue(s[..|s| - 1]) + DigitValue(s[|s| - 1])
  }

  /** The digits shown denote the character's number, without leading zeros. */
  lemma {:induction false} HexDenotes(n: nat)
    ensures HexValue(Hex(n)) == n && (n > 0 ==> Hex(n)[0] != '0')
  {
    if n >= 16 {
      HexDenotes(n / 16);
      assert Hex(n)[..|Hex(n)| - 1] == Hex(n / 16);
    } else {
      assert Hex(n)[..0] == "";
    }
  }

  function Escape(c: char): string {
    if c == '\t' then "\\t" else if c == '\r' then "\\r" else if c == '\n' then "\\n"
    else "\\u{" + Hex(c as int) + "}"
  }

  /** The three short escapes, and for every other character its number in braces. */
  lemma EscapeNames(c: char)
    ensures Escape(9 as char) == ['\\', 't'] && Escape(13 as char) == ['\\', 'r'] && Escape(10 as char) == ['\\', 'n']
    ensures c as int !in {9, 10, 13} ==>
      var e := Escape(c);
      && |e| > 4 && e[..3] == ['\\', 'u', '{'] && e[|e| - 1] == '}'
      && HexValue(e[3..|e| - 1]) == c as int
  {
    HexDenotes(c as int);
    if c as int !in {9, 10, 13} { assert Escape(c)[3..|Escape(c)| - 1] == Hex(c as int); }
  }

  /** What is shown for one character. */
  function Shown(c: char): (s: string)
    ensures s != "" && AllPrintable(s)
  {
    if Printable(c) then [c] else Escape(c)
  }

  function Escaped(command: string): (s: string)
    ensures AllPrintable(s)
  {
    if command == "" then "" else Escaped(command[..|command| - 1]) + Shown(command[|command| - 1])
  }

  /** The number of characters shown for the first `k` characters of the command. */
  function Width(command: string, k: nat): nat
    requires k <= |command|
  {
    |Escaped(command[..k])|
  }

  lemma WidthGrows(command: string, j: nat, k: nat)
    requires j <= k <= |command|
    ensures Width(command, j) <= Width(command, k)
    ensures Escaped(command[..k])[..Width(command, j)] == Escaped(command[..j])
  {
    if j < k {
      WidthGrows(command, j, k - 1);
      assert command[..k][..k - 1] == command[..k - 1];
      var front := Escaped(command[..k - 1]);
      assert Escaped(command[..k]) == front + Shown(command[k - 1]);
      assert (front + Shown(command[k - 1]))[..Width(command, j)] == front[..Width(command, j)];
    }
  }

  predicate LeavesRoom(command: string, k: nat)
    requires k <= |command|
  {
    Width(command, k) + |TRUNCATION_MARKER| <= MAX_DISPLAYED_SSH_COMMAND_CHARS
  }

  /** `k` is the longest prefix that, shown character by character, leaves room for the marker. */
  ghost predicate LongestPrefix(command: string, k: nat) {
    k <= |command| && LeavesRoom(command, k) && NoRoomAfter(command, k)
  }

  ghost predicate NoRoomAfter(command: string, k: nat) {
    forall j :: k < j <= |command| ==> !LeavesRoom(command, j)
  }

  lemma NoRoomBefore(command: string, k: nat)
    requires 0 < k <= |command| && NoRoomAfter(command, k) && !LeavesRoom(command, k)
    ensures NoRoomAfter(command, k - 1)
  {
  }

  /** The whole command if it fits, otherwise the longest prefix and the marker. */
  ghost predicate Displays(command: string, r: string) {
    if |Escaped(command)| <= MAX_DISPLAYED_SSH_COMMAND_CHARS then r == Escaped(command)
    else exists k: nat :: LongestPrefix(command, k) && r == Escaped(command[..k]) + TRUNCATION_MARKER
  }

  /** The length, in bytes and in characters, of what is shown so far. */
  datatype Boundary = Boundary(bytes: nat, chars: nat)

  /** What is shown is ASCII, so both lengths are the same. */
  function BoundaryAt(command: string, j: nat): Boundary
    requires j <= |command|
  {
    Boundary(Width(command, j), Width(command, j))
  }

  /** One boundary for each prefix up to `n`. */
  ghost predicate Boundaries(command: string, boundaries: seq<Boundary>, n: nat) {
    && n <= |command| && |boundaries| == n + 1
    && forall j :: 0 <= j <= n ==> boundaries[j] == BoundaryAt(command, j)
  }

  lemma BoundariesPop(command: string, boundaries: seq<Boundary>, n: nat)
    requires Boundaries(command, boundaries, n) && n > 0
    ensures Boundaries(command, boundaries[..n], n - 1)
    ensures boundaries[..n][n - 1] == BoundaryAt(command, n - 1)
    ensures Width(command, n - 1) <= Width(command, n)
    ensures Escaped(command[..n])[..Width(command, n - 1)] == Escaped(command[..n - 1])
  {
    WidthGrows(command, n - 1, n);
  }

  lemma BoundariesPush(command: string, boundaries: seq<Boundary>, n: nat)
    requires Boundaries(command, boundaries, n) && n < |command|
    ensures Escaped(command[..n + 1]) == Escaped(command[..n]) + Shown(command[n])
    ensures Boundaries(command, boundaries + [BoundaryAt(command, n + 1)], n + 1)
  {
    assert command[..n + 1][..n] == command[..n];
  }

  lemma DisplaysTruncated(command: string, n: nat, shown: string)
    requires n <= |command| && Width(command, n) > MAX_DISPLAYED_SSH_COMMAND_CHARS
    requires TruncatedTo(command, shown)
    ensures Displays(command, shown + TRUNCATION_MARKER)
  {
    WidthGrows(command, n, |command|);
    assert command[..|command|] == command;
  }

  lemma LongerPrefixesTooWide(command: string, n: nat)
    requires n <= |command| && Width(command, n) > MAX_DISPLAYED_SSH_COMMAND_CHARS
    requires n > 0
    ensures NoRoomAfter(command, n - 1)
  {
    forall j | n <= j <= |command| ensures !LeavesRoom(command, j) { WidthGrows(command, n, j); }
  }

  lemma EmptyPrefix(command: string)
    ensures Width(command, 0) == 0
  {
  }

  /** The first `n` characters are shown, and no longer prefix leaves room for the marker. */
  ghost predicate StandsAt(command: string, boundaries: seq<Boundary>, escaped: string, rendered: nat, n: nat) {
    && Boundaries(command, boundaries, n) && escaped == Escaped(command[..n]) && rendered == |escaped|
    && NoRoomAfter(command, n)
  }

  lemma TakenBack(command: string, boundaries: seq<Boundary>, escaped: string, rendered: nat, n: nat)
    requires StandsAt(command, boundaries, escaped, rendered, n)
    requires rendered + |TRUNCATION_MARKER| > MAX_DISPLAYED_SSH_COMMAND_CHARS
    ensures n > 0 && |boundaries| == n + 1 && boundaries[n - 1].bytes <= |escaped|
    ensures StandsAt(command, boundaries[..n], escaped[..boundaries[n - 1].bytes], boundaries[n - 1].chars, n - 1)
  {
    EmptyPrefix(command);
    NoRoomBefore(command, n);
    BoundariesPop(command, boundaries, n);
  }

  lemma MarkerFits(command: string, boundaries: seq<Boundary>, escaped: string, rendered: nat, n: nat)
    requires StandsAt(command, boundaries, escaped, rendered, n)
    requires rendered + |TRUNCATION_MARKER| <= MAX_DISPLAYED_SSH_COMMAND_CHARS
    ensures TruncatedTo(command, escaped)
  {
    assert LongestPrefix(command, n);
  }

  /** `shown` is the longest prefix, character by character, that leaves room for the marker. */
  ghost predicate TruncatedTo(command: string, shown: string) {
    exists k: nat :: LongestPrefix(command, k) && shown == Escaped(command[..k])
  }

  /** The characters taken back one by one until the marker fits; the stack never runs out. */
  method Backtrack(ghost command: string, escaped0: string, rendered0: nat, boundaries0: seq<Boundary>)
    returns (escaped: string)
    requires 0 < |boundaries0| && StandsAt(command, boundaries0, escaped0, rendered0, |boundaries0| - 1)
    ensures TruncatedTo(command, escaped)
  {
    escaped := escaped0;
    var rendered: nat, boundaries := rendered0, boundaries0;
    while rendered + |TRUNCATION_MARKER| > MAX_DISPLAYED_SSH_COMMAND_CHARS
      invariant 0 < |boundaries| && StandsAt(command, boundaries, escaped, rendered, |boundaries| - 1)
      decreases |boundaries|
    {
      TakenBack(command, boundaries, escaped, rendered, |boundaries| - 1);
      boundaries := boundaries[..|boundaries| - 1];
      var boundary := boundaries[|boundaries| - 1];
      escaped := escaped[..boundary.bytes];
      rendered := boundary.chars;
    }
    MarkerFits(command, boundaries, escaped, rendered, |boundaries| - 1);
  }

  method FormatSshOriginalCommand(command: string) returns (r: string)
    ensures Displays(command, r)
  {
    var escaped, rendered: nat, boundaries: seq<Boundary> := "", 0, [Boundary(0, 0)];
    for i := 0 to |command|
      invariant escaped == Escaped(command[..i]) && rendered == |escaped| <= MAX_DISPLAYED_SSH_COMMAND_CHARS
      invariant Boundaries(command, boundaries, i)
    {
      var shown := Shown(command[i]);
      BoundariesPush(command, boundaries, i);
      if rendered + |shown| > MAX_DISPLAYED_SSH_COMMAND_CHARS {
        LongerPrefixesTooWide(command, i + 1);
        escaped := Backtrack(command, escaped, rendered, boundaries);
        DisplaysTruncated(command, i + 1, escaped);
        return escaped + TRUNCATION_MARKER;
      }
      escaped := escaped + shown;
      rendered := rendered + |shown|;
      boundaries := boundaries + [Boundary(|escaped|, rendered)];
    }
    assert command[..|command|] == command;
    r := escaped;
  }

  lemma WithMarker(shown: string)
    requires AllPrintable(shown)
    ensures AllPrintable(shown + TRUNCATION_MARKER)
  {
    forall c | c in TRUNCATION_MARKER ensures Printable(c) {
      var i :| 0 <= i < |TRUNCATION_MARKER| && TRUNCATION_MARKER[i] == c;
    }
  }

  /** What is shown is short and printable. */
  lemma DisplayIsBounded(command: string, r: string)
    requires Displays(command, r)
    ensures |r| <= 1000 && forall c :: c in r ==> 32 <= c as int <= 126
  {
    if |Escaped(command)| > MAX_DISPLAYED_SSH_COMMAND_CHARS {
      var k: nat :| LongestPrefix(command, k) && r == Escaped(command[..k]) + TRUNCATION_MARKER;
      WithMarker(Escaped(command[..k]));
    }
  }

  /** Only one text can be shown for a command. */
  lemma DisplayIsUnique(command: string, r: string, s: string)
    requires Displays(command, r) && Displays(command, s)
    ensures r == s
  {
    if |Escaped(command)| > MAX_DISPLAYED_SSH_COMMAND_CHARS {
      var k: nat :| LongestPrefix(command, k) && r == Escaped(command[..k]) + TRUNCATION_MARKER;
      var j: nat :| LongestPrefix(command, j) && s == Escaped(command[..j]) + TRUNCATION_MARKER;
      assert k <= j && j <= k;
    }
  }

  lemma {:induction false} PrintableEscaped(command: string)
    requires AllPrintable(command)
    ensures Escaped(command) == command
  {
    if command != "" {
      PrintableEscaped(command[..|command| - 1]);
    }
  }

  /** A printable command is shown as it is exactly if it fits; a longer one is cut. */
  lemma PrintableUnchanged(command: string)
    requires forall c :: c in command ==> 32 <= c as int <= 126
    ensures Displays(command, command) <==> |command| <= 1000
  {
    PrintableEscaped(command);
    if Displays(command, command) { DisplayIsBounded(command, command); }
  }
}
