/**
 * The nickname dialog: a text field whose value is confirmed, trimmed, by
 * the Enter key or by the button, and only when something is left after
 * trimming.
 */
module NicknameModal {
  import opened Js

  /**
   * The gate both confirm paths share: `if (nickname.trim())
   * onConfirm(nickname.trim())`. The result is what `onConfirm` receives,
   * or `None` when it is not called.
   */
  function ConfirmGate(nickname: string): (confirmed: Option<string>)
    ensures confirmed.Some? <==> !AllWhitespace(nickname)
    ensures confirmed.Some? ==> confirmed.value == Trim(nickname)
    ensures confirmed.Some? ==>
              && confirmed.value != ""
              && !IsWhitespace(confirmed.value[0])
              && !IsWhitespace(confirmed.value[|confirmed.value| - 1])
  {
    var trimmed := Trim(nickname);
    if trimmed != "" then Some(trimmed) else None
  }

  /** Confirming a confirmed name again gives the same name. */
  lemma ConfirmGateStable(nickname: string)
    requires ConfirmGate(nickname).Some?
    ensures ConfirmGate(ConfirmGate(nickname).value) == ConfirmGate(nickname)
  {
    TrimIdempotent(nickname);
  }

  /** A name with surrounding spaces is confirmed without them. */
  lemma ConfirmGateDropsSurroundingSpaces(s: string)
    requires s == " 민수 "
    ensures ConfirmGate(s) == Some("민수")
    ensures ConfirmGate("  ") == None
  {
    assert !IsWhitespace(s[1]) && IsWhitespace(s[0]);
    assert LeadingWhitespace(s[1..]) == 0;
    assert LeadingWhitespace(s) == 1;
    assert TrailingWhitespace(s[..3]) == 0;
    assert TrailingWhitespace(s) == 1;
    assert s[1..3] == "민수";
  }

  /** The dialog's `nickname` state cell. */
  class NicknameDialog {
    var nickname: string

    constructor ()
      ensures nickname == ""
    {
      nickname := "";
    }

    /** The input's `onChange`: the raw value, untrimmed, becomes the state. */
    method Change(value: string)
      modifies this
      ensures nickname == value
    {
      nickname := value;
    }

    /** The input's `onKeyDown`: only Enter confirms, through the shared gate. */
    method KeyDown(key: string) returns (confirmed: Option<string>)
      ensures key != "Enter" ==> confirmed.None?
      ensures key == "Enter" ==> confirmed == ConfirmGate(nickname)
    {
      confirmed := None;
      if key == "Enter" {
        var trimmed := Trim(nickname);
        if trimmed != "" {
          confirmed := Some(trimmed);
        }
      }
    }

    /** The button's `onClick`: the same gate as Enter. */
    method ClickConfirm() returns (confirmed: Option<string>)
      ensures confirmed == ConfirmGate(nickname)
    {
      confirmed := None;
      var trimmed := Trim(nickname);
      if trimmed != "" {
        confirmed := Some(trimmed);
      }
    }
  }

  /** What the component renders: nothing while closed, otherwise the dialog with its button label. */
  datatype ModalView = Nothing | Dialog(buttonLabel: string)

  function Render(isOpen: bool, isShared: bool): (v: ModalView)
    ensures v == Nothing <==> !isOpen
    ensures v.Dialog? ==> v.buttonLabel == if isShared then "입력하기" else "공유하기"
  {
    if !isOpen then Nothing else Dialog(if isShared then "입력하기" else "공유하기")
  }
}
