/** Chat messages and the validation of their role (the `Message` model of the server). */
module Messages {
  import opened Wrappers

  /** The roles a message may carry once validated, in lower case. */
  const ValidRoles: set<string> := {"user", "assistant", "system"}

  /** The error text the validator raises for any other role. */
  const InvalidRoleMessage: string := "Role must be one of 'user', 'assistant', or 'system'"

  /** A chat message. The type does not constrain `role`; `MakeMessage` (and `ParseMessage` in
      `Requests`) build only messages whose role is one of `ValidRoles`. */
  datatype Message = Message(role: string, content: string)

  /** The lower-case form of one character, as Python's `str.lower` gives it for every character
      whose lower-case form is ASCII: 'A'..'Z' and the Kelvin sign, which lowers to 'k'. Every other
      character is kept; Python maps some of them to other non-ASCII text, which no valid role contains. */
  function LowerChar(c: char): (r: char)
    ensures 'A' <= c <= 'Z' ==> r as int == c as int + 32
    ensures c == '\U{212A}' ==> r == 'k'
    ensures r != c ==> ('A' <= c <= 'Z' || c == '\U{212A}')
    ensures 'a' <= r <= 'z' ==> ('a' <= c <= 'z' || 'A' <= c <= 'Z' || c == '\U{212A}')
  {
    if 'A' <= c <= 'Z' then (c as int + 32) as char
    else if c == '\U{212A}' then 'k'
    else c
  }

  /** The lower-case form of a string, character by character. */
  function Lower(s: string): (r: string)
    ensures |r| == |s|
    ensures forall i :: 0 <= i < |s| ==> r[i] == LowerChar(s[i])
  {
    if s == [] then [] else [LowerChar(s[0])] + Lower(s[1..])
  }

  /** Lower-casing twice is lower-casing once. */
  lemma LowerIdempotent(s: string)
    ensures Lower(Lower(s)) == Lower(s)
  {
    var l := Lower(s);
    forall i | 0 <= i < |s| ensures Lower(l)[i] == l[i] {
      assert LowerChar(LowerChar(s[i])) == LowerChar(s[i]);
    }
  }

  /** `Message.validate_role`: accept a role whose lower-case form is valid, and store that form. */
  function ValidateRole(value: string): (r: Result<string, string>)
    ensures r.Success? <==> Lower(value) in ValidRoles
    ensures r.Success? ==> r.value == Lower(value) && r.value in ValidRoles
    ensures r.Failure? ==> r.error == InvalidRoleMessage
  {
    var lowered := Lower(value);
    if lowered !in ValidRoles then Failure(InvalidRoleMessage) else Success(lowered)
  }

  /** A stored role validates to itself: validation is idempotent. */
  lemma ValidateRoleIdempotent(value: string)
    requires ValidateRole(value).Success?
    ensures ValidateRole(ValidateRole(value).value) == ValidateRole(value)
  {
    LowerIdempotent(value);
  }

  /** A string of lower-case ASCII letters is its own lower-case form. */
  lemma LowerOfLowerCase(s: string)
    requires forall i :: 0 <= i < |s| ==> 'a' <= s[i] <= 'z'
    ensures Lower(s) == s
  {
  }

  /** A role that is already one of the valid roles is accepted unchanged. */
  lemma ValidRoleAccepted(role: string)
    requires role in ValidRoles
    ensures ValidateRole(role) == Success(role)
  {
    assert role == "user" || role == "assistant" || role == "system";
    LowerOfLowerCase(role);
  }

  /** `t` is the lower-case form of `s` when each character of `t` lowers from the one of `s`. */
  lemma LowerIs(s: string, t: string)
    requires |s| == |t| && forall i :: 0 <= i < |s| ==> LowerChar(s[i]) == t[i]
    ensures Lower(s) == t
  {
  }

  /** Case is ignored: "USER" becomes "user" and "Assistant" becomes "assistant". */
  lemma UpperCaseRolesNormalised()
    ensures ValidateRole("USER") == Success("user")
    ensures ValidateRole("Assistant") == Success("assistant")
  {
    LowerIs("USER", "user");
    LowerIs("Assistant", "assistant");
  }

  /** A role outside the three is rejected: "bot" fails validation. */
  lemma UnknownRoleRejected()
    ensures ValidateRole("bot") == Failure(InvalidRoleMessage)
  {
    LowerOfLowerCase("bot");
  }

  /** Building a `Message` from its two fields: the role goes through the validator. */
  function MakeMessage(role: string, content: string): (r: Result<Message, string>)
    ensures r.Success? <==> Lower(role) in ValidRoles
    ensures r.Success? ==> r.value == Message(Lower(role), content)
    ensures r.Failure? ==> r.error == InvalidRoleMessage
  {
    match ValidateRole(role)
    case Success(stored) => Success(Message(stored, content))
    case Failure(e) => Failure(e)
  }
}
