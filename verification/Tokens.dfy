/** The names agr passes between its parts: session tokens, SSH hosts and path base names. */
module Tokens {
  predicate TokenChar(c: char) {
    'A' <= c <= 'Z' || 'a' <= c <= 'z' || '0' <= c <= '9' || c == '_' || c == '.' || c == '-'
  }

  predicate Valid(s: string) {
    s != "" && s[0] != '-' && s[0] != '.' && forall k :: 0 <= k < |s| ==> TokenChar(s[k])
  }

  const SHELL_META := {
    '\\', '\'', '\"', '`', '$', ';', '&', '|', '(', ')', '<', '>', '*', '?', '[', ']', '{', '}', '!', '#', '~'}

  predicate ValidHost(s: string) {
    s != "" && s[0] != '-' && forall k :: 0 <= k < |s| ==> '!' <= s[k] <= '~' && s[k] !in SHELL_META
  }

  /** A letter, a digit or an underscore. */
  predicate WordChar(c: char) { 'a' <= c <= 'z' || 'A' <= c <= 'Z' || '0' <= c <= '9' || c == '_' }

  /** A token starts with a letter, digit or underscore and goes on with these, dots and dashes, so it is
      neither an option nor a hidden or a nested path, and it may stand for a host. */
  lemma ValidIs(s: string)
    ensures Valid(s) <==> s != "" && WordChar(s[0]) && forall c :: c in s ==> WordChar(c) || c == '.' || c == '-'
    ensures Valid(s) ==> ValidHost(s)
  {
    hide TokenChar;
    assert !WordChar('-') && !WordChar('.');
    assert s != "" ==> s[0] in s;
    forall c ensures TokenChar(c) <==> WordChar(c) || c == '.' || c == '-' { TokenCharIs(c); }
    forall c ensures TokenChar(c) ==> '!' <= c <= '~' && c !in SHELL_META { TokenCharIs(c); HostCharIs(c); }
  }

  /** A host is made of the characters of a token and eight others; all that is left of the printable
      ones means something to a shell. */
  lemma ValidHostIs(s: string)
    ensures ValidHost(s) <==>
              s != "" && s[0] != '-' && forall c :: c in s ==> WordChar(c) || c in {'.', '-', '%', '+', ',', '/', ':', '=', '@', '^'}
  {
    hide WordChar;
    forall k | 0 <= k < |s|
      ensures '!' <= s[k] <= '~' && s[k] !in SHELL_META <==> WordChar(s[k]) || s[k] in {'.', '-', '%', '+', ',', '/', ':', '=', '@', '^'}
    {
      HostCharIs(s[k]);
    }
    assert forall k :: 0 <= k < |s| ==> s[k] in s;
  }

  lemma TokenCharIs(c: char)
    ensures TokenChar(c) <==> WordChar(c) || c == '.' || c == '-'
  {}

  lemma HostCharIs(c: char)
    ensures '!' <= c <= '~' && c !in SHELL_META <==> WordChar(c) || c in {'.', '-', '%', '+', ',', '/', ':', '=', '@', '^'}
  {}

  /** s without trailing slashes. */
  function TrimSlashes(s: string): (r: string)
    ensures r <= s && (r == "" || r[|r| - 1] != '/')
  {
    if s != "" && s[|s| - 1] == '/' then TrimSlashes(s[..|s| - 1]) else s
  }

  /** What follows the last slash of s. */
  function LastPart(s: string): (r: string)
    ensures '/' !in r && |r| <= |s| && s[|s| - |r|..] == r
  {
    if s == "" || s[|s| - 1] == '/' then ""
    else LastPart(s[..|s| - 1]) + [s[|s| - 1]]
  }

  /** path.Base. */
  function Base(s: string): string {
    if s == "" then "."
    else if TrimSlashes(s) == "" then "/"
    else LastPart(TrimSlashes(s))
  }

  /** What strings.TrimSpace removes. */
  predicate IsSpace(c: char) {
    c == ' ' || '\t' <= c <= '\r' || c == '\U{85}' || c == '\U{A0}' || c == '\U{1680}' || '\U{2000}' <= c <= '\U{200A}'
    || c == '\U{2028}' || c == '\U{2029}' || c == '\U{202F}' || c == '\U{205F}' || c == '\U{3000}'
  }

  predicate OnlySpace(s: string) { forall k :: 0 <= k < |s| ==> IsSpace(s[k]) }
}
