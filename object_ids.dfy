/** Document identifiers, in the text form an ObjectId takes when it is compared or stored in a String field. */
module ObjectIds {

  predicate IsHexDigit(c: char) {
    '0' <= c <= '9' || 'a' <= c <= 'f'
  }

  /** `ObjectId.toString()` yields 24 lower-case hexadecimal digits. */
  predicate IsObjectIdText(s: string) {
    |s| == 24 && forall i :: 0 <= i < |s| ==> IsHexDigit(s[i])
  }

  type Id = s: string | IsObjectIdText(s) witness "000000000000000000000000"
}
