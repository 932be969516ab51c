/** The failure descriptor of the railway algebra (Railway.Core/Error.cs). */
module Errors {

  import opened Text

  /** A value type: two Errors are equal exactly when code and message are. */
  datatype Error = Error(code: string, message: string)

  /** The sentinel meaning "no error". */
  const None: Error := Error("", "")

  /** `Error.ToString()`: the message alone when the code is blank, otherwise "code: message". */
  function ToString(e: Error): (s: string)
    ensures IsBlank(e.code) ==> s == e.message
    ensures !IsBlank(e.code) ==>
      && |s| == |e.code| + 2 + |e.message|
      && s[..|e.code|] == e.code
      && s[|e.code|..|e.code| + 2] == ": "
      && s[|e.code| + 2..] == e.message
  {
    if IsBlank(e.code) then e.message else e.code + ": " + e.message
  }

  /** The sentinel has empty fields and renders as the empty string. */
  lemma NoneRendersEmpty()
    ensures None.code == "" && None.message == ""
    ensures ToString(None) == ""
  {
  }

  /** Record-struct equality is field-wise. */
  lemma EqualityIsFieldwise(a: Error, b: Error)
    ensures a == b <==> a.code == b.code && a.message == b.message
  {
  }

}
