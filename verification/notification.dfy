/** The transient advisory banner (frontend/src/components/Notification.tsx). */
module Notification {
  import opened Types
  import opened Text

  const ErrorColor := "#dc3545"
  const SuccessColor := "#28a745"

  /** The two colours the banner takes from its message. */
  datatype Style = Style(color: string, borderColor: string)

  /** A message is styled as an error when, lowercased, it mentions one of
      "please", "upload", "add" or "first". */
  predicate IsError(message: string)
  {
    var m := Lower(message);
    Contains(m, "please") || Contains(m, "upload") || Contains(m, "add") || Contains(m, "first")
  }

  /** The classification ignores case: a message and its lowercase form
      are classified alike. */
  lemma IsErrorIgnoresCase(message: string)
    ensures IsError(Lower(message)) == IsError(message)
  {
    var m := Lower(message);
    assert Lower(m) == m by {
      forall i | 0 <= i < |m|
        ensures Lower(m)[i] == m[i]
      {
        assert !('A' <= m[i] <= 'Z');
      }
    }
  }

  /** What the banner renders: nothing when it is not visible; otherwise
      text and border both in the error red exactly when the message is an
      error, and both in the success green otherwise. */
  function Render(message: string, isVisible: bool): (r: Option<Style>)
    ensures r.None? <==> !isVisible
    ensures r.Some? ==> r.value.color == r.value.borderColor
    ensures r.Some? ==> (r.value.color == ErrorColor <==> IsError(message))
    ensures r.Some? ==> (r.value.color == SuccessColor <==> !IsError(message))
  {
    if !isVisible then None
    else
      var isError := IsError(message);
      Some(Style(if isError then ErrorColor else SuccessColor,
                 if isError then ErrorColor else SuccessColor))
  }

  /** A message that opens with "Please" is classified as an error, whatever
      follows. */
  lemma PleaseMessageIsError(rest: string)
    ensures IsError("Please" + rest)
  {
    var m := Lower("Please" + rest);
    assert m[..6] == "please";
    assert "please" <= m;
  }
}
