/**
 * The six-cell code-entry form (`VerifyCode`). Its state is the code string,
 * six per-cell error flags and two message strings; each event handler is one
 * atomic transition of that state, and returns the index of the cell that
 * receives focus, if focus moves. The network answer to a submission is a
 * parameter of the submit transition.
 *
 * The code string is not six fixed slots: it is edited through `SetAt`, so a
 * cleared cell deletes its character and the later ones shift left, and a
 * character typed past the end of the string is appended to it.
 */
module VerifyCodeComponent {
  import opened Wrappers
  import opened SplitJoin

  const Cells := 6
  const PasteMessage := "Please paste up to 6 digits."
  const DigitsMessage := "Please enter valid 6 digits."
  const SuccessMessage := "Verification successful!"
  const FailedMessage := "Verification failed."
  const ErrorMessage := "Verification error."

  /** What the submission's `axios.post` produced: a response whose body has
      the given `success` field, or a thrown error. */
  datatype PostResult = Resolved(dataSuccess: bool) | Thrown

  predicate IsDigit(c: char)
  {
    '0' <= c <= '9'
  }

  /** The characters JavaScript's string-to-number conversion trims
      (WhiteSpace and LineTerminator of ECMA-262): a one-character string made
      of one of them converts to 0. */
  predicate IsJsWhiteSpace(c: char)
  {
    || c == '\t' || c == '\n' || c == '\U{B}' || c == '\U{C}' || c == '\r' || c == ' '
    || c == '\U{A0}' || c == '\U{1680}' || ('\U{2000}' <= c <= '\U{200A}')
    || c == '\U{2028}' || c == '\U{2029}' || c == '\U{202F}' || c == '\U{205F}'
    || c == '\U{3000}' || c == '\U{FEFF}'
  }

  /** `isNaN(c)` for a one-character string: only the ASCII digits and the
      white-space characters convert to a number. */
  predicate NonNumeric(c: char)
    ensures IsDigit(c) ==> !NonNumeric(c)
    ensures ('a' <= c <= 'z' || 'A' <= c <= 'Z') ==> NonNumeric(c)
  {
    !IsDigit(c) && !IsJsWhiteSpace(c)
  }

  /** `value === "" || isNaN(value)` for a cell's value of at most one character. */
  predicate CellInvalid(value: string)
    requires |value| <= 1
    ensures value == "" ==> CellInvalid(value)
    ensures |value| == 1 && IsDigit(value[0]) ==> !CellInvalid(value)
    ensures |value| == 1 && ('a' <= value[0] <= 'z' || 'A' <= value[0] <= 'Z') ==> CellInvalid(value)
  {
    value == "" || NonNumeric(value[0])
  }

  /** The paste filter `/^\d{1,6}$/`: one to six ASCII digits and nothing else. */
  predicate PasteAccepted(p: string)
    ensures PasteAccepted(p) ==> p != "" && |p| - 1 < Cells
    ensures PasteAccepted(p) ==> forall k :: 0 <= k < |p| ==> !NonNumeric(p[k])
    ensures PasteAccepted(p) ==> (ClientAccepts(p) <==> |p| == Cells)
  {
    1 <= |p| <= Cells && forall k :: 0 <= k < |p| ==> IsDigit(p[k])
  }

  /** What the submit handler's loop lets through: six characters, none of
      which `isNaN` rejects. */
  predicate ClientAccepts(code: string)
    ensures ClientAccepts(code) ==>
      |code| == Cells && forall k :: 0 <= k < |code| ==> IsDigit(code[k]) || IsJsWhiteSpace(code[k])
    ensures |code| == Cells && (forall k :: 0 <= k < |code| ==> IsDigit(code[k])) ==> ClientAccepts(code)
  {
    |code| == Cells && forall k :: 0 <= k < |code| ==> !NonNumeric(code[k])
  }

  /** Cell `k` shows `code[k] || ""`. */
  function Cell(code: string, k: nat): (r: string)
    ensures |r| <= 1
    ensures r == "" <==> |code| <= k
    ensures r != "" ==> r[0] == code[k]
  {
    if k < |code| then [code[k]] else ""
  }

  /** What the six cells display. */
  function Render(code: string): (cells: seq<string>)
    ensures |cells| == Cells
    ensures forall k :: 0 <= k < Cells ==> |cells[k]| <= 1
    ensures forall k :: 0 <= k < Cells ==> (cells[k] == "" <==> |code| <= k)
  {
    seq(Cells, (k: nat) => Cell(code, k))
  }

  /** The code after pasting `p` over `prev`: the pasted characters overwrite
      from position 0 and the characters beyond them are kept. */
  function Overlay(prev: string, p: string): (r: string)
    ensures |r| == if |p| <= |prev| then |prev| else |p|
    ensures forall k :: 0 <= k < |r| ==> r[k] == if k < |p| then p[k] else prev[k]
  {
    if |p| <= |prev| then p + prev[|p|..] else p
  }

  /** One step of the paste loop, on strings. */
  lemma OverlayStep(prev: string, p: string, c: char)
    ensures var o := Overlay(prev, p);
      |p| <= |o| && Overlay(prev, p + [c]) == if |p| < |o| then o[|p| := c] else o + [c]
  {
    var o, o' := Overlay(prev, p), Overlay(prev, p + [c]);
    var e := if |p| < |o| then o[|p| := c] else o + [c];
    assert |o'| == |e|;
    forall k | 0 <= k < |e|
      ensures o'[k] == e[k]
    {
      if k < |p| {
        assert (p + [c])[k] == p[k];
      }
    }
  }

  /** Assigning a one-character string at or before the end of a split string
      keeps the array hole-free. */
  lemma AssignChar(s: string, i: nat, c: char)
    requires i <= |s|
    ensures Assign(Split(s), i, [c]) == Split(if i < |s| then s[i := c] else s + [c])
  {
    if i == |s| {
      assert Holes(0) == [];
    }
  }

  /** The state updater passed to `setCode` by the paste handler: split the
      previous code, write each pasted character at its own index, join. */
  method PasteUpdater(prevCode: string, digits: string) returns (next: string)
    ensures next == Overlay(prevCode, digits)
  {
    var codeArray := Split(prevCode);
    var index := 0;
    while index < |digits|
      invariant index <= |digits|
      invariant codeArray == Split(Overlay(prevCode, digits[..index]))
    {
      OverlayStep(prevCode, digits[..index], digits[index]);
      AssignChar(Overlay(prevCode, digits[..index]), index, digits[index]);
      assert digits[..index + 1] == digits[..index] + [digits[index]];
      codeArray := Assign(codeArray, index, [digits[index]]);
      index := index + 1;
    }
    assert digits[..index] == digits;
    JoinSplit(Overlay(prevCode, digits));
    next := Join(codeArray);
  }

  /** The submit handler's validation loop: recompute the flag of every cell
      the code reaches, keep the others, and note whether any was bad. */
  method CheckCells(code: string, inputErrors: seq<bool>) returns (newErrors: seq<bool>, hasError: bool)
    requires |code| <= |inputErrors|
    ensures |newErrors| == |inputErrors|
    ensures forall k :: 0 <= k < |code| ==> newErrors[k] == NonNumeric(code[k])
    ensures forall k :: |code| <= k < |inputErrors| ==> newErrors[k] == inputErrors[k]
    ensures hasError <==> exists k :: 0 <= k < |code| && NonNumeric(code[k])
  {
    newErrors := inputErrors;
    hasError := false;
    var index := 0;
    while index < |code|
      invariant index <= |code|
      invariant |newErrors| == |inputErrors|
      invariant forall k :: 0 <= k < index ==> newErrors[k] == NonNumeric(code[k])
      invariant forall k :: index <= k < |inputErrors| ==> newErrors[k] == inputErrors[k]
      invariant hasError <==> exists k :: 0 <= k < index && NonNumeric(code[k])
    {
      var digit := [code[index]];
      if CellInvalid(digit) {
        newErrors := newErrors[index := true];
        hasError := true;
      } else {
        newErrors := newErrors[index := false];
      }
      index := index + 1;
    }
  }

  /** Typing one character into a cell the code reaches replaces that cell
      only; every other cell keeps what it showed. */
  lemma ChangeInsideReplacesCell(s: string, i: nat, v: string)
    requires i < |s| && |v| == 1
    ensures |SetAt(s, i, v)| == |s|
    ensures forall k: nat :: Cell(SetAt(s, i, v), k) == if k == i then v else Cell(s, k)
  {
  }

  /** Clearing a cell the code reaches (backspace, or a change to "") deletes
      its character: earlier cells are unchanged, later cells shift left by one
      and the last filled cell becomes empty. */
  lemma ClearInsideShiftsLeft(s: string, i: nat)
    requires i < |s|
    ensures |SetAt(s, i, "")| == |s| - 1
    ensures forall k: nat :: k < i ==> Cell(SetAt(s, i, ""), k) == Cell(s, k)
    ensures forall k: nat :: i <= k ==> Cell(SetAt(s, i, ""), k) == Cell(s, k + 1)
  {
    var r := SetAt(s, i, "");
    assert r == s[..i] + s[i + 1..];
    forall k: nat | i <= k < |r|
      ensures r[k] == s[k + 1]
    {
    }
  }

  /** Typing into a cell beyond the end of the code appends the character: it
      shows up in the first empty cell, not in the cell typed into. */
  lemma ChangePastEndAppends(s: string, i: nat, v: string)
    requires |s| <= i && |v| == 1
    ensures SetAt(s, i, v) == s + v
    ensures forall k: nat :: Cell(SetAt(s, i, v), k) == if k == |s| then v else Cell(s, k)
  {
  }

  /** Clearing a cell beyond the end of the code leaves the code as it was. */
  lemma ClearPastEndIsNoOp(s: string, i: nat)
    requires |s| <= i
    ensures SetAt(s, i, "") == s
  {
  }

  /** With single-character values and the six cells' indices, a change or a
      backspace never makes the code longer than six. */
  lemma EditKeepsCodeBound(s: string, i: nat, v: string)
    requires |s| <= Cells && i < Cells && |v| <= 1
    ensures |SetAt(s, i, v)| <= Cells
    ensures v == "" ==> |SetAt(s, i, v)| <= |s|
  {
  }

  /** An accepted paste never makes the code longer than six. */
  lemma PasteKeepsCodeBound(s: string, p: string)
    requires |s| <= Cells && PasteAccepted(p)
    ensures |Overlay(s, p)| <= Cells
  {
  }

  /** The cells' texts read left to right. */
  function Spell(cells: seq<string>): string
  {
    if cells == [] then "" else cells[0] + Spell(cells[1..])
  }

  /** Reading the cells from cell `j` on gives the code from position `j` on. */
  lemma {:induction false} SpellFrom(code: string, j: nat)
    requires |code| <= Cells && j <= Cells
    ensures Spell(Render(code)[j..]) == if j < |code| then code[j..] else ""
    decreases Cells - j
  {
    var cells := Render(code);
    if j < Cells {
      assert cells[j..][1..] == cells[j + 1..];
      SpellFrom(code, j + 1);
      if j < |code| {
        assert cells[j] == [code[j]];
        assert [code[j]] + code[j + 1..] == code[j..];
      }
    } else {
      assert cells[j..] == [];
    }
  }

  /** The six cells, read left to right, spell the code. */
  lemma RenderSpellsCode(code: string)
    requires |code| <= Cells
    ensures Spell(Render(code)) == code
  {
    SpellFrom(code, 0);
    assert Render(code)[0..] == Render(code);
  }

  class VerifyCode {
    var code: string
    var inputErrors: seq<bool>
    var error: string
    var success: string

    /** Six flags, and a code no longer than the six cells: every handler keeps this. */
    ghost predicate Valid()
      reads this
    {
      |inputErrors| == Cells && |code| <= Cells
    }

    constructor ()
      ensures Valid()
      ensures code == "" && error == "" && success == ""
      ensures inputErrors == seq(Cells, _ => false)
    {
      code := "";
      error := "";
      success := "";
      inputErrors := seq(Cells, _ => false);
    }

    /** A change event in cell `index` whose input now holds `value`; the
        inputs' `maxLength="1"` keeps `value` to at most one character. */
    method HandleChange(index: nat, value: string) returns (focus: Option<nat>)
      requires Valid() && index < Cells && |value| <= 1
      modifies this
      ensures Valid()
      ensures code == SetAt(old(code), index, value)
      ensures inputErrors == old(inputErrors)[index := CellInvalid(value)]
      ensures error == old(error) && success == old(success)
      ensures focus == if value != "" && index < 5 then Some(index + 1) else None
    {
      code := SetAt(code, index, value);
      inputErrors := inputErrors[index := CellInvalid(value)];
      focus := if value != "" && index < 5 then Some(index + 1) else None;
    }

    /** A key-down event in cell `index`; only Backspace does anything. */
    method HandleKeyDown(key: string, index: nat) returns (focus: Option<nat>)
      requires Valid() && index < Cells
      modifies this
      ensures Valid()
      ensures key != "Backspace" ==>
        code == old(code) && inputErrors == old(inputErrors) && focus == None
      ensures key == "Backspace" ==>
        && code == SetAt(old(code), index, "")
        && inputErrors == old(inputErrors)[index := false]
        && focus == (if index > 0 then Some(index - 1) else None)
      ensures error == old(error) && success == old(success)
    {
      focus := None;
      if key == "Backspace" {
        code := SetAt(code, index, "");
        if index > 0 {
          focus := Some(index - 1);
        }
        inputErrors := inputErrors[index := false];
      }
    }

    /** A paste of `paste` anywhere in the group of cells. */
    method HandlePaste(paste: string) returns (focus: Option<nat>)
      requires Valid()
      modifies this
      ensures Valid()
      ensures !PasteAccepted(paste) ==>
        code == old(code) && error == PasteMessage && focus == None
      ensures PasteAccepted(paste) ==>
        code == Overlay(old(code), paste) && error == "" && focus == Some(|paste| - 1)
      ensures inputErrors == old(inputErrors) && success == old(success)
    {
      if !PasteAccepted(paste) {
        error := PasteMessage;
        return None;
      }
      error := "";
      code := PasteUpdater(code, paste);
      var lastIndex := if |paste| - 1 < 5 then |paste| - 1 else 5;
      focus := Some(lastIndex);
    }

    /** Submitting the form. `result` is what the request would produce; it is
        used only when the client-side check lets the code through, and
        `posted` is then the code sent. */
    method HandleSubmit(result: PostResult) returns (posted: Option<string>)
      requires Valid()
      modifies this
      ensures Valid()
      ensures posted.Some? <==> ClientAccepts(old(code))
      ensures posted.Some? ==> posted.value == old(code)
      ensures !ClientAccepts(old(code)) ==>
        && code == old(code) && error == DigitsMessage && success == ""
        && |inputErrors| == Cells
        && (forall k :: 0 <= k < |old(code)| ==> inputErrors[k] == NonNumeric(old(code)[k]))
        && (forall k :: |old(code)| <= k < Cells ==> inputErrors[k] == old(inputErrors)[k])
      ensures ClientAccepts(old(code)) && result == Resolved(true) ==>
        && code == "" && inputErrors == seq(Cells, _ => false)
        && success == SuccessMessage && error == ""
      ensures ClientAccepts(old(code)) && result == Resolved(false) ==>
        && code == old(code) && inputErrors == old(inputErrors)
        && error == FailedMessage && success == ""
      ensures ClientAccepts(old(code)) && result == Thrown ==>
        && code == old(code) && inputErrors == old(inputErrors)
        && error == ErrorMessage && success == ""
    {
      error := "";
      success := "";
      var newErrors, hasError := CheckCells(code, inputErrors);
      if hasError || |code| != Cells {
        error := DigitsMessage;
        inputErrors := newErrors;
        return None;
      }
      posted := Some(code);
      match result
      case Resolved(dataSuccess) =>
        if dataSuccess {
          success := SuccessMessage;
          error := "";
          code := "";
          inputErrors := seq(Cells, _ => false);
        } else {
          error := FailedMessage;
          success := "";
        }
      case Thrown =>
        error := ErrorMessage;
        success := "";
    }
  }
}

/**
 * Interaction sequences on a fresh form, each returning what the user sees.
 */
module Scenarios {
  import opened Wrappers
  import opened VerifyCodeComponent

  /** Pasting "123456" into an empty form fills the six cells in order and
      focuses the last one. */
  method PasteIntoEmptyForm() returns (cells: seq<string>, focus: Option<nat>)
    ensures cells == ["1", "2", "3", "4", "5", "6"]
    ensures focus == Some(5)
  {
    var form := new VerifyCode();
    focus := form.HandlePaste("123456");
    cells := Render(form.code);
  }

  /** A paste with a non-digit is refused: the cells keep their characters and
      the paste message is shown. */
  method RefusedPasteKeepsCells() returns (cells: seq<string>, error: string)
    ensures cells == ["9", "", "", "", "", ""]
    ensures error == PasteMessage
  {
    var form := new VerifyCode();
    var _ := form.HandleChange(0, "9");
    assert form.code == "9";
    assert !IsDigit("12a45"[2]);
    var _ := form.HandlePaste("12a45");
    cells := Render(form.code);
    error := form.error;
  }

  /** Typing a letter into the third cell of an empty form flags the third
      cell, yet the letter appears in the first cell and focus still advances. */
  method LetterInEmptyForm() returns (cells: seq<string>, flags: seq<bool>, focus: Option<nat>)
    ensures cells == ["x", "", "", "", "", ""]
    ensures flags == [false, false, true, false, false, false]
    ensures focus == Some(3)
  {
    var form := new VerifyCode();
    focus := form.HandleChange(2, "x");
    cells := Render(form.code);
    flags := form.inputErrors;
  }

  /** Backspace in the third cell of a full form removes the third digit and
      moves the later ones left. */
  method BackspaceInFullForm() returns (cells: seq<string>, focus: Option<nat>)
    ensures cells == ["1", "2", "4", "5", "6", ""]
    ensures focus == Some(1)
  {
    var form := new VerifyCode();
    var _ := form.HandlePaste("123456");
    focus := form.HandleKeyDown("Backspace", 2);
    cells := Render(form.code);
  }

  /** A valid code that the server accepts clears the cells and the flags and
      shows the success message. */
  method SuccessfulSubmission() returns (posted: Option<string>, cells: seq<string>, flags: seq<bool>, success: string)
    ensures posted == Some("123456")
    ensures cells == ["", "", "", "", "", ""]
    ensures flags == [false, false, false, false, false, false]
    ensures success == SuccessMessage
  {
    var form := new VerifyCode();
    var _ := form.HandlePaste("123456");
    posted := form.HandleSubmit(Resolved(true));
    cells := Render(form.code);
    flags := form.inputErrors;
    success := form.success;
  }

  /** Submitting four digits sends nothing and leaves the two empty cells
      unflagged: only the cells the code reaches are checked. */
  method ShortCodeSubmission() returns (posted: Option<string>, flags: seq<bool>, error: string)
    ensures posted == None
    ensures flags == [false, false, false, false, false, false]
    ensures error == DigitsMessage
  {
    var form := new VerifyCode();
    var _ := form.HandlePaste("1234");
    posted := form.HandleSubmit(Thrown);
    flags := form.inputErrors;
    error := form.error;
  }
}
