/**
 * fix_secrets.py: repair two known-corrupted lines of the secrets file,
 * the admin password line and the `universe_domain` line, and keep every
 * other line as it is.
 */
module FixSecrets {
  import opened PyStr

  /** The keys of the two repaired lines, and the two domains a corrupted domain line mixes. */
  const PasswordKey: string := "ADMIN_PASSWORD"
  const DomainKey: string := "\"universe_domain\""
  const ApiDomain: string := "googleapis.com"
  const AccountDomain: string := "gserviceaccount.com"

  /** The lines written in their place. */
  const PasswordLine: string := PasswordKey + " = \"housmart_admin\"\n"
  const DomainLine: string := DomainKey + " = \"" + ApiDomain + "\"\n"

  /** The line written for one input line. */
  function Patched(line: string): string {
    var stripped := Strip(line);
    if StartsWith(stripped, PasswordKey) then PasswordLine
    else if StartsWith(stripped, DomainKey) then
      if Contains(stripped, ApiDomain) && Contains(stripped, AccountDomain) then DomainLine else line
    else line
  }

  /** The rewritten file: each line patched on its own. */
  function PatchedLines(lines: seq<string>): (r: seq<string>)
    ensures |r| == |lines|
    decreases |lines|
  {
    if lines == [] then [] else PatchedLines(lines[..|lines| - 1]) + [Patched(lines[|lines| - 1])]
  }

  /** Line `k` of the output is line `k` of the input, patched. */
  lemma {:induction false} PatchedLineAt(lines: seq<string>, k: nat)
    requires k < |lines|
    ensures PatchedLines(lines)[k] == Patched(lines[k])
    decreases |lines|
  {
    if k < |lines| - 1 {
      PatchedLineAt(lines[..|lines| - 1], k);
    }
  }

  /** Patching one more line of a prefix appends that line, patched. */
  lemma PatchedPrefix(lines: seq<string>, i: nat)
    requires i < |lines|
    ensures PatchedLines(lines[..i + 1]) == PatchedLines(lines[..i]) + [Patched(lines[i])]
  {
    assert lines[..i + 1][..i] == lines[..i];
  }

  /** The loop body: the line written for `line`. */
  method PatchLine(line: string) returns (out: string)
    ensures out == Patched(line)
  {
    var stripped := Strip(line);
    out := line;
    if StartsWith(stripped, PasswordKey) {
      out := PasswordLine;
    } else if StartsWith(stripped, DomainKey) {
      if Contains(stripped, ApiDomain) && Contains(stripped, AccountDomain) {
        out := DomainLine;
      }
    }
  }

  /** The rewrite loop over the file's lines. */
  method PatchSecrets(lines: seq<string>) returns (newLines: seq<string>)
    ensures newLines == PatchedLines(lines)
  {
    newLines := [];
    for i := 0 to |lines|
      invariant newLines == PatchedLines(lines[..i])
    {
      var out := PatchLine(lines[i]);
      PatchedPrefix(lines, i);
      newLines := newLines + [out];
    }
    assert lines[..|lines|] == lines;
  }

  /** A string whose first and `m`-th characters are not whitespace keeps its first `m + 1` characters through `strip()`. */
  lemma StripKeepsFront(s: string, m: nat)
    requires m < |s| && !IsSpace(s[0]) && !IsSpace(s[m])
    ensures |Strip(s)| > m && Strip(s)[..m + 1] == s[..m + 1]
  {
    var l := LStrip(s);
    assert l == s;
    var r := RStrip(l);
    assert |r| > m;
  }

  /** No stripped line starts with both keys: they differ in their first character. */
  lemma KeysExclusive(t: string)
    ensures !(StartsWith(t, PasswordKey) && StartsWith(t, DomainKey))
  {
    if StartsWith(t, PasswordKey) {
      assert t[0] == PasswordKey[0] == 'A';
      assert DomainKey[0] == '"';
    }
  }

  /** The password line repairs to itself. */
  lemma PasswordLineFixed()
    ensures Patched(PasswordLine) == PasswordLine
  {
    var n := |PasswordKey|;
    StripKeepsFront(PasswordLine, n - 1);
    assert PasswordLine[..n] == PasswordKey;
  }

  /** The domain line repairs to itself: whichever branch it takes, the line it writes is itself. */
  lemma DomainLineFixed()
    ensures Patched(DomainLine) == DomainLine
  {
    var n := |DomainKey|;
    StripKeepsFront(DomainLine, n - 1);
    assert DomainLine[..n] == DomainKey;
    KeysExclusive(Strip(DomainLine));
  }

  /** Any line whose stripped text starts with ADMIN_PASSWORD becomes the default password line. */
  lemma PasswordReset(line: string)
    requires StartsWith(Strip(line), PasswordKey)
    ensures Patched(line) == PasswordLine
  {
  }

  /**
   * A `"universe_domain"` line mentioning both domains becomes the clean
   * domain line; one missing either is kept.
   */
  lemma DomainRepaired(line: string)
    requires StartsWith(Strip(line), DomainKey)
    ensures Patched(line) == (if Contains(Strip(line), ApiDomain) && Contains(Strip(line), AccountDomain)
                              then DomainLine else line)
  {
    KeysExclusive(Strip(line));
  }

  /** Every other line is unchanged. */
  lemma OthersKept(line: string)
    requires !StartsWith(Strip(line), PasswordKey) && !StartsWith(Strip(line), DomainKey)
    ensures Patched(line) == line
  {
  }

  /** Running the repair twice gives what running it once gives. */
  lemma PatchedIdempotent(line: string)
    ensures Patched(Patched(line)) == Patched(line)
  {
    var p := Patched(line);
    if p == PasswordLine {
      PasswordLineFixed();
    } else if p == DomainLine {
      DomainLineFixed();
    } else {
      assert p == line;
    }
  }

  /** Patching an already patched file changes nothing. */
  lemma {:induction false} PatchIdempotent(lines: seq<string>)
    ensures PatchedLines(PatchedLines(lines)) == PatchedLines(lines)
    decreases |lines|
  {
    if lines != [] {
      var front := lines[..|lines| - 1];
      PatchIdempotent(front);
      PatchedIdempotent(lines[|lines| - 1]);
      var once := PatchedLines(lines);
      assert once[..|once| - 1] == PatchedLines(front);
    }
  }
}
