/** The character classes of include/vct.h; a byte is a character up to 255. */
module Vct {
  predicate IsSp(c: char) { c == ' ' || c == '\t' }

  predicate IsLws(c: char) { IsSp(c) || c == '\n' || c == '\r' }

  predicate IsHex(c: char) { '0' <= c <= '9' || 'a' <= c <= 'f' || 'A' <= c <= 'F' }

  predicate IsXmlNameStart(c: char) {
    || 'A' <= c <= 'Z' || 'a' <= c <= 'z' || c == '_' || c == ':'
    || ('\U{c0}' <= c <= '\U{ff}' && c != '\U{d7}' && c != '\U{f7}')
  }

  predicate IsXmlName(c: char) {
    IsXmlNameStart(c) || '0' <= c <= '9' || c == '-' || c == '.' || c == '\U{b7}'
  }
}
