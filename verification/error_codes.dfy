/** The error-code table and message builder of `utils/errorCodeMap.js`. */
module ErrorCodes {
  import opened Text

  /** The only entry of the error-code table. */
  const E1000: string := "E1000"
  const E1000Message: string := "Email template could not be processed!"

  /** The table itself: code to human-readable message. */
  const ErrorCodeMap: map<string, string> := map[E1000 := E1000Message]

  /** `errorCodeMap.build(code, message)`: the trimmed text `[code] message`.
      Whatever the message, the result opens with the bracketed code. */
  function Build(code: string, message: string): (r: string)
    ensures Trimmed(r)
    ensures |r| >= |code| + 2 && r[..|code| + 2] == "[" + code + "]"
  {
    var s := "[" + code + "] " + message;
    assert s[0] == '[' && s[|code| + 1] == ']';
    TrimKeepsPrefix(s, |code| + 1);
    assert s[..|code| + 2] == "[" + code + "]";
    Trim(s)
  }

  /** A message that does not end in whitespace comes out verbatim after `[code] `. */
  lemma BuildExact(code: string, message: string)
    requires |message| > 0 && !IsJsSpace(message[|message| - 1])
    ensures Build(code, message) == "[" + code + "] " + message
  {
    TrimKeepsTrimmed("[" + code + "] " + message);
  }

  /** With an empty message the separating space is trimmed away. */
  lemma BuildEmptyMessage(code: string)
    ensures Build(code, "") == "[" + code + "]"
  {
    assert "[" + code + "] " + "" == ("[" + code + "]") + " ";
    TrimDropsTrailingSpace("[" + code + "]", " ");
  }

  /** Both parameters default to `''`, giving `[]`. */
  lemma BuildDefaults()
    ensures Build("", "") == "[]"
  {
    BuildEmptyMessage("");
  }

  /** Every message in the table is fit for the builder: none ends in
      whitespace, so building an entry gives `[code] message` verbatim. */
  lemma TableEntriesBuildVerbatim(code: string)
    requires code in ErrorCodeMap
    ensures Build(code, ErrorCodeMap[code]) == "[" + code + "] " + ErrorCodeMap[code]
  {
    BuildExact(code, ErrorCodeMap[code]);
  }
}
