/** How a reply to a preview is read. */
module ChatReplies {
  import opened Strings
  import opened Topics

  /** The words that approve a preview; the Chinese ones are spelled in UTF-8. */
  function Affirmatives(): set<Text> {
    {
      "\U{E6}\U{98}\U{AF}", "\U{E6}\U{98}\U{AF}\U{E7}\U{9A}\U{84}", "\U{E8}\U{A6}\U{81}",
      "\U{E5}\U{A5}\U{BD}\U{E7}\U{9A}\U{84}", "\U{E5}\U{A5}\U{BD}", "\U{E5}\U{8F}\U{AF}\U{E4}\U{BB}\U{A5}",
      "\U{E7}\U{A1}\U{AE}\U{E8}\U{AE}\U{A4}", "\U{E7}\U{A1}\U{AE}\U{E5}\U{AE}\U{9A}",
      "\U{E5}\U{BC}\U{80}\U{E5}\U{A7}\U{8B}", "\U{E6}\U{89}\U{A7}\U{E8}\U{A1}\U{8C}",
      "\U{E5}\U{BC}\U{80}\U{E5}\U{A7}\U{8B}\U{E6}\U{89}\U{A7}\U{E8}\U{A1}\U{8C}",
      "\U{E5}\U{BC}\U{80}\U{E5}\U{A7}\U{8B}\U{E5}\U{90}\U{A7}", "\U{E7}\U{BB}\U{A7}\U{E7}\U{BB}\U{AD}",
      "\U{E8}\U{B7}\U{91}", "\U{E5}\U{B9}\U{B2}", "yes", "y", "ok", "okay", "sure", "confirm", "start", "go",
      "run", "proceed", "do it"
    }
  }

  function Negatives(): set<Text> {
    {
      "\U{E4}\U{B8}\U{8D}", "\U{E4}\U{B8}\U{8D}\U{E6}\U{98}\U{AF}", "\U{E4}\U{B8}\U{8D}\U{E8}\U{A6}\U{81}",
      "\U{E5}\U{90}\U{A6}", "\U{E7}\U{AE}\U{97}\U{E4}\U{BA}\U{86}", "\U{E4}\U{B8}\U{8D}\U{E7}\U{94}\U{A8}",
      "\U{E4}\U{B8}\U{8D}\U{E7}\U{94}\U{A8}\U{E4}\U{BA}\U{86}", "\U{E5}\U{8F}\U{96}\U{E6}\U{B6}\U{88}",
      "\U{E5}\U{81}\U{9C}", "\U{E5}\U{81}\U{9C}\U{E4}\U{B8}\U{8B}", "\U{E5}\U{88}\U{AB}", "no", "n", "cancel",
      "stop", "abort", "nope", "nvm", "nevermind"
    }
  }

  predicate IsAffirmative(text: Text) {
    ToLower(Trim(text)) in Affirmatives()
  }

  predicate IsNegative(text: Text) {
    ToLower(Trim(text)) in Negatives()
  }

  /** No reply both approves and abandons. */
  lemma RepliesAreUnambiguous(text: Text)
    ensures !(IsAffirmative(text) && IsNegative(text))
  {
  }
}
