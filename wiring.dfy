/**
 * The form and the server together. The form posts its code with axios, whose
 * default status check resolves a reply with a 2xx status and rejects any
 * other status by throwing; the form's `catch` then shows the transport
 * message. The server's failures are all status 400, so with this server a
 * rejected code shows "Verification error." and "Verification failed." is
 * never shown.
 */
module Wiring {
  import opened Wrappers
  import opened Server
  import opened VerifyCodeComponent

  /** What `axios.post` yields for a reply: the body for a 2xx status, a thrown
      error otherwise. */
  function PostResultOf(r: Reply): (p: PostResult)
    ensures p.Resolved? <==> 200 <= r.status < 300
    ensures p.Resolved? ==> p.dataSuccess == r.body.success
  {
    if 200 <= r.status < 300 then Resolved(r.body.success) else Thrown
  }

  /** What the form learns from the server when it posts `code`. */
  function Exchange(code: string): (r: PostResult)
    ensures r != Resolved(false)
    ensures r == Resolved(true) <==> |code| == CodeLength && code[5] != '7'
  {
    PostResultOf(Handle(Some(code)))
  }

  /** A code the form lets through always passes the server's length check:
      the only server verdicts it can meet are success and ends-in-7, and the
      server's verdict for it is success exactly when it does not end in '7'. */
  lemma AcceptedCodeReachesLastCharacterCheck(code: string)
    requires ClientAccepts(code)
    ensures Verify(Some(code)) != InvalidLength
    ensures Exchange(code) == if code[5] == '7' then Thrown else Resolved(true)
  {
  }

  /** The server never produces a response that resolves with `success` false,
      so the form's "Verification failed." branch is unreachable with it. */
  lemma NeverResolvedFalse(code: Option<string>)
    ensures PostResultOf(Handle(code)) != Resolved(false)
  {
  }

  /** The client check treats white space as numeric, so a code with a space
      in it is posted, and the server accepts it. */
  lemma WhiteSpacePassesBothChecks()
    ensures ClientAccepts(" 23456")
    ensures Verify(Some(" 23456")) == Verified
  {
    var c := " 23456";
    assert IsJsWhiteSpace(c[0]);
    assert forall k :: 1 <= k < |c| ==> IsDigit(c[k]);
  }

  /** A submission answered by the real server: the result handed to the
      submit handler is the one the server's reply produces. */
  method SubmitToServer(form: VerifyCode) returns (posted: Option<string>)
    requires form.Valid()
    modifies form
    ensures form.Valid()
    ensures posted.Some? <==> ClientAccepts(old(form.code))
    ensures posted.Some? && old(form.code)[5] != '7' ==>
      form.code == "" && form.success == SuccessMessage && form.error == ""
    ensures posted.Some? && old(form.code)[5] == '7' ==>
      form.code == old(form.code) && form.success == "" && form.error == ErrorMessage
    ensures form.error != FailedMessage
  {
    var result := if ClientAccepts(form.code) then Exchange(form.code) else Thrown;
    if ClientAccepts(form.code) {
      AcceptedCodeReachesLastCharacterCheck(form.code);
    }
    posted := form.HandleSubmit(result);
  }
}
