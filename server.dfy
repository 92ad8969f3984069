/**
 * The `POST /api/verify` handler of the backend: a stateless check of the
 * `code` field of the JSON request body. `None` stands for an absent field.
 * The checks run in order: the length first, then the sixth character; the
 * other characters are never inspected.
 */
module Server {
  import opened Wrappers

  const CodeLength := 6
  const LengthMessage := "Invalid code. Code must be 6 digits long."
  const EndsInSevenMessage := "Verification Error: Code ends in 7"

  /** The JSON body of a reply: `{ success, message? }`. */
  datatype Body = Body(success: bool, message: Option<string>)

  /** An HTTP reply: status and JSON body. */
  datatype Reply = Reply(status: int, body: Body)

  /** The three ways the handler can answer. */
  datatype Outcome = InvalidLength | EndsInSeven | Verified
  {
    /** The reply the handler sends for this outcome. */
    function ToReply(): (r: Reply)
      ensures r.body.success <==> Verified?
      ensures r.status == 200 <==> Verified?
      ensures r.body.success <==> r.body.message.None?
    {
      match this
      case InvalidLength => Reply(400, Body(false, Some(LengthMessage)))
      case EndsInSeven => Reply(400, Body(false, Some(EndsInSevenMessage)))
      case Verified => Reply(200, Body(true, None))
    }
  }

  /** The handler's decision for a request whose `code` field is `code`.
      A missing or empty code fails the length check like any other length. */
  function Verify(code: Option<string>): (r: Outcome)
    ensures r == InvalidLength <==> code.None? || |code.value| != CodeLength
    ensures r == EndsInSeven <==> code.Some? && |code.value| == CodeLength && code.value[5] == '7'
    ensures r == Verified <==> code.Some? && |code.value| == CodeLength && code.value[5] != '7'
  {
    if code.None? || code.value == "" || |code.value| != CodeLength then InvalidLength
    else if code.value[5] == '7' then EndsInSeven
    else Verified
  }

  /** The reply the handler sends: `200 {success: true}` exactly for a
      six-character code whose sixth character is not '7', otherwise 400. */
  function Handle(code: Option<string>): (r: Reply)
    ensures r.status == 200 <==> r.body.success
    ensures r.status == 200 || r.status == 400
    ensures r.body.success <==> code.Some? && |code.value| == CodeLength && code.value[5] != '7'
  {
    Verify(code).ToReply()
  }

  /** Complete characterisation of the reply: status 200 with `{success: true}`
      exactly for six-character codes not ending in '7'; otherwise status 400
      with the length message or the ends-in-7 message. */
  lemma HandleCharacterisation(code: Option<string>)
    ensures var r := Handle(code);
      && (r == Reply(200, Body(true, None)) <==> code.Some? && |code.value| == 6 && code.value[5] != '7')
      && (r == Reply(400, Body(false, Some(LengthMessage))) <==> code.None? || |code.value| != 6)
      && (r == Reply(400, Body(false, Some(EndsInSevenMessage))) <==>
            code.Some? && |code.value| == 6 && code.value[5] == '7')
  {
  }

  /** Only the length and the last character decide: the first five characters
      are never checked, digits or not. */
  lemma OnlyLengthAndLastCharacterMatter(s: string, t: string)
    requires |s| == |t| && (|s| == 6 ==> s[5] == t[5])
    ensures Verify(Some(s)) == Verify(Some(t))
  {
  }

  /** Examples: the length check takes precedence over the ends-in-7 check, and
      non-digits pass when the last character is not '7'. */
  lemma Examples()
    ensures Verify(Some("1234567")) == InvalidLength
    ensures Verify(Some("12345")) == InvalidLength
    ensures Verify(Some("")) == InvalidLength
    ensures Verify(None) == InvalidLength
    ensures Verify(Some("000007")) == EndsInSeven
    ensures Verify(Some("abcde7")) == EndsInSeven
    ensures Verify(Some("abcde6")) == Verified
    ensures Verify(Some("123456")) == Verified
  {
  }
}
