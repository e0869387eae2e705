/** White space as Unicode defines it, which trimming a text removes. */
module WhiteSpace {
  predicate IsWhiteSpace(c: char) {
    || '\U{9}' <= c <= '\U{D}' || c == ' ' || c == '\U{85}' || c == '\U{A0}' || c == '\U{1680}'
    || '\U{2000}' <= c <= '\U{200A}' || c == '\U{2028}' || c == '\U{2029}' || c == '\U{202F}'
    || c == '\U{205F}' || c == '\U{3000}'
  }

  /** Nothing is left of the text when it is trimmed. */
  predicate Blank(s: string) {
    forall k :: 0 <= k < |s| ==> IsWhiteSpace(s[k])
  }
}
