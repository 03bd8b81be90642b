/** The `has_code` flag that app.py records with each chat turn: a keyword test
    on the upper-cased reply, with a list of its own, independent of the gate
    of `format_response`. */
module CodeFlag {
  import opened Strings
  import opened Formatter

  /** The keywords of `has_code`; they are all upper-case, so each can match. */
  const CodeFlagKeywords: seq<string> :=
    ["DEFINE VIEW", "@VIEWTYPE", "@ACCESSCONTROL", "SELECT FROM"]

  /** `has_code`: does the upper-cased reply contain one of the flag keywords? */
  predicate HasCode(aiMsg: string) {
    ContainsAny(Upper(aiMsg), CodeFlagKeywords)
  }

  /** A reply whose upper-cased form has "DEFINE VIEW" or "SELECT FROM"
      raises the flag and passes the gate alike: "DEFINE VIEW" is a gate
      keyword itself, and "SELECT FROM" contains the gate keyword "SELECT". */
  lemma SharedKeywordsAgree(aiMsg: string)
    requires var u := Upper(aiMsg);
             Contains(u, "DEFINE VIEW") || Contains(u, "SELECT FROM")
    ensures HasCode(aiMsg) && HasAbapCode(aiMsg)
  {
    var u := Upper(aiMsg);
    if Contains(u, "DEFINE VIEW") {
      assert Contains(u, CodeFlagKeywords[0]);
      assert Contains(u, AbapKeywords[0]);
    } else {
      assert Contains(u, CodeFlagKeywords[3]);
      assert OccursAt("SELECT FROM", "SELECT", 0);
      ContainsTransitive(u, "SELECT FROM", "SELECT");
      assert Contains(u, AbapKeywords[1]);
    }
  }

  /** So the flag is raised without the gate passing only by one of the two
      annotations, which the gate spells in mixed case and never sees. */
  lemma FlagWithoutGate(aiMsg: string)
    requires HasCode(aiMsg)
    ensures var u := Upper(aiMsg);
            HasAbapCode(aiMsg) || Contains(u, "@VIEWTYPE") || Contains(u, "@ACCESSCONTROL")
  {
    var u := Upper(aiMsg);
    var i :| 0 <= i < |CodeFlagKeywords| && Contains(u, CodeFlagKeywords[i]);
    if i == 0 || i == 3 {
      SharedKeywordsAgree(aiMsg);
    }
  }
}
