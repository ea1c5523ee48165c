/** The few `java.lang.String` queries the programs use, on `seq<char>`. */
module Text {

  /** `s.startsWith(prefix)` */
  predicate StartsWith(s: string, prefix: string) {
    prefix <= s
  }

  /** `s.endsWith(suffix)` */
  predicate EndsWith(s: string, suffix: string) {
    |suffix| <= |s| && s[|s| - |suffix|..] == suffix
  }

  /** The characters the regular-expression class `\d` matches in Java (ASCII digits only). */
  predicate IsDigit(c: char) {
    '0' <= c <= '9'
  }
}
