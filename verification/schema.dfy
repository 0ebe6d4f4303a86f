/** The transliteration direction shared by client and server: a two-value
    enumeration whose wire form is the string "en-to-hi" (`EnToHi`) or
    "hi-to-en" (`HiToEn`). */
module Schema {
  datatype Direction = EnToHi | HiToEn
}
