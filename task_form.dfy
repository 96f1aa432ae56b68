/**
 * The add-task form of src/components/TaskForm.tsx: one text field whose
 * trimmed content is handed to `onAddTask` on submit, and the rules that
 * disable the input and the submit button.
 */
module TaskForm {
  import opened Tasks

  /** The characters `String.prototype.trim` strips: ECMAScript WhiteSpace and LineTerminator. */
  predicate IsWhitespace(c: char)
    ensures IsWhitespace(c) ==> c as int <= 0xFFFF
    ensures c as int < 128 ==> (IsWhitespace(c) <==> c in "\t\n\U{000B}\U{000C}\r ")
  {
    c == '\t' || c == '\n' || c == '\U{000B}' || c == '\U{000C}' || c == '\r' || c == ' ' ||
    c == '\U{00A0}' || c == '\U{1680}' || ('\U{2000}' <= c <= '\U{200A}') ||
    c == '\U{2028}' || c == '\U{2029}' || c == '\U{202F}' || c == '\U{205F}' ||
    c == '\U{3000}' || c == '\U{FEFF}'
  }

  predicate AllWhitespace(s: string)
  {
    forall i :: 0 <= i < |s| ==> IsWhitespace(s[i])
  }

  /** How many whitespace characters `s` starts with. */
  function LeadingWhitespace(s: string): (n: nat)
    ensures n <= |s|
    ensures AllWhitespace(s[..n])
    ensures n < |s| ==> !IsWhitespace(s[n])
  {
    if |s| == 0 || !IsWhitespace(s[0]) then 0
    else
      var k := LeadingWhitespace(s[1..]);
      assert s[..k + 1] == [s[0]] + s[1..][..k];
      k + 1
  }

  /** Where the trailing run of whitespace of `s` begins. */
  function TrailingStart(s: string): (n: nat)
    ensures n <= |s|
    ensures AllWhitespace(s[n..])
    ensures n > 0 ==> !IsWhitespace(s[n - 1])
  {
    if |s| == 0 || !IsWhitespace(s[|s| - 1]) then |s|
    else
      var k := TrailingStart(s[..|s| - 1]);
      assert s[k..] == s[..|s| - 1][k..] + [s[|s| - 1]];
      k
  }

  /** `r` is `s` with a whitespace prefix and a whitespace suffix cut off. */
  predicate IsCore(r: string, s: string)
  {
    exists i, j :: 0 <= i <= j <= |s| && r == s[i..j] && AllWhitespace(s[..i]) && AllWhitespace(s[j..])
  }

  /** `s.trim()`. */
  function Trim(s: string): (r: string)
    ensures IsCore(r, s)
    ensures r != "" ==> !IsWhitespace(r[0]) && !IsWhitespace(r[|r| - 1])
    ensures r == "" <==> AllWhitespace(s)
  {
    var i := LeadingWhitespace(s);
    var rest := s[i..];
    var j := TrailingStart(rest);
    assert rest[..j] == s[i..i + j];
    assert s[i + j..] == rest[j..];
    assert AllWhitespace(s) ==> i == |s|;
    assert j == 0 ==> s == s[..i] + s[i..];
    rest[..j]
  }

  /** Trimming twice is trimming once. */
  lemma TrimIdempotent(s: string)
    ensures Trim(Trim(s)) == Trim(s)
  {
    var t := Trim(s);
    if t != "" {
      assert LeadingWhitespace(t) == 0;
      assert TrailingStart(t) == |t|;
    }
  }

  class Form {
    /** `taskText`: what the text field currently holds. */
    var taskText: string

    constructor ()
      ensures taskText == ""
    {
      taskText := "";
    }

    /** The field's `onChange`: `setTaskText(e.target.value)`. */
    method Change(value: string)
      modifies this
      ensures taskText == value
    {
      taskText := value;
    }

    /**
     * `handleSubmit`: when the trimmed text is not empty, hands it to
     * `onAddTask` (the returned value) and clears the field; otherwise does
     * nothing.
     */
    method HandleSubmit() returns (added: Option<string>)
      modifies this
      ensures AllWhitespace(old(taskText)) ==> added.None? && taskText == old(taskText)
      ensures !AllWhitespace(old(taskText)) ==> added.Some? && added.value == Trim(old(taskText)) && taskText == ""
      ensures added.Some? ==> added.value != "" && !IsWhitespace(added.value[0]) &&
                              !IsWhitespace(added.value[|added.value| - 1])
    {
      var trimmed := Trim(taskText);
      if trimmed != "" {
        added := Some(trimmed);
        taskText := "";
      } else {
        added := None;
      }
    }

    /** The submit button's `disabled`: `!taskText.trim() || isLoading`. */
    function ButtonDisabled(isLoading: bool): (d: bool)
      reads this
      ensures d <==> isLoading || AllWhitespace(taskText)
    {
      Trim(taskText) == "" || isLoading
    }

    /** The text field's `disabled`: locked exactly while a request is in flight, and then the button is locked too. */
    function InputDisabled(isLoading: bool): (d: bool)
      reads this
      ensures d ==> ButtonDisabled(isLoading)
      ensures !d ==> (ButtonDisabled(isLoading) <==> AllWhitespace(taskText))
    {
      isLoading
    }
  }
}
