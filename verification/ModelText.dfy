/** The phrases by which the run loop reads a model's plain text. */
module ModelText {
  import opened Strings

  predicate ContainsAny(text: string, phrases: seq<string>) {
    exists i :: 0 <= i < |phrases| && Contains(text, phrases[i])
  }

  predicate DetectUserQuestion(output: string) {
    ContainsAny(Lower(output),
                ["which option", "do you want", "should i", "would you prefer", "please confirm", "please provide",
                 "what is your", "can you clarify", "i need more information", "unable to proceed without"])
  }

  /** Whether unparsable tool calls are worth another attempt. */
  predicate ShouldRetryParse(text: string, hasAllowedTools: bool) {
    hasAllowedTools
    && !ContainsAny(Lower(Trim(text)),
                    ["not enabled for this agent", "please enable it and retry", "network.enabled=true",
                     "shell.enable_exec=true"])
  }

  /** Whether a reply promises or claims action although no tool has run. */
  predicate ShouldForceFollowThrough(text: string, hasAllowedTools: bool, hasResults: bool) {
    var lower := Lower(Trim(text));
    && hasAllowedTools && !hasResults
    && lower != "" && |lower| <= 480
    && !ContainsAny(lower, ["can't", "cannot", "unable", "permission", "missing", "blocked"])
    && ContainsAny(lower, ["let me", "let me try", "let me check", "let me verify", "let me look", "i will", "i'll",
                           "i am going to", "i'm going to", "give me a moment", "hold on", "i created",
                           "created the file", "created `", "created ", "implemented", "implementation complete",
                           "i updated", "i wrote", "saved to"])
  }
}
