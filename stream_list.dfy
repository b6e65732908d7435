/** The StreamList page's list builder: an input buffer that every keystroke
    overwrites and a list of submitted entries that only grows while the page
    stays mounted. A submission is accepted only when the buffer, trimmed, is
    non-empty; the entry stored is the buffer as typed, untrimmed. */
module StreamList {

  // ---------------------------------------------------------------------
  // String.prototype.trim
  // ---------------------------------------------------------------------

  /** The characters `trim` removes: WhiteSpace (section 12.2 of ECMA-262:
      tab, vertical tab, form feed, the byte order mark and every space
      separator of Unicode category Zs) and LineTerminator (section 12.3:
      line feed, carriage return, line and paragraph separators). */
  predicate IsWhitespace(c: char)
  {
    c == '\t' || c == '\U{000B}' || c == '\U{000C}' || c == '\U{FEFF}' ||
    c == ' ' || c == '\U{00A0}' || c == '\U{1680}' ||
    ('\U{2000}' <= c <= '\U{200A}') ||
    c == '\U{202F}' || c == '\U{205F}' || c == '\U{3000}' ||
    c == '\n' || c == '\r' || c == '\U{2028}' || c == '\U{2029}'
  }

  /** Every character of `s` is whitespace (vacuously so for ""). */
  ghost predicate AllWhitespace(s: string)
  {
    forall i :: 0 <= i < |s| ==> IsWhitespace(s[i])
  }

  /** `s` without its leading whitespace: a suffix of `s` that starts with a
      non-whitespace character, or is empty, and every character dropped is
      whitespace. */
  function TrimStart(s: string): (r: string)
    ensures |r| <= |s| && r == s[|s| - |r|..]
    ensures r == [] || !IsWhitespace(r[0])
    ensures AllWhitespace(s[..|s| - |r|])
  {
    if s != [] && IsWhitespace(s[0]) then
      var r := TrimStart(s[1..]);
      assert s[..|s| - |r|] == [s[0]] + s[1..][..|s| - 1 - |r|];
      r
    else s
  }

  /** `s` without its trailing whitespace: a prefix of `s` that ends with a
      non-whitespace character, or is empty, and every character dropped is
      whitespace. */
  function TrimEnd(s: string): (r: string)
    ensures |r| <= |s| && r == s[..|r|]
    ensures r == [] || !IsWhitespace(r[|r| - 1])
    ensures AllWhitespace(s[|r|..])
  {
    if s != [] && IsWhitespace(s[|s| - 1]) then
      var r := TrimEnd(s[..|s| - 1]);
      assert s[|r|..] == s[..|s| - 1][|r|..] + [s[|s| - 1]];
      r
    else s
  }

  /** `trim`: whitespace removed from both ends. The result is empty exactly
      when `s` has no character that is not whitespace; otherwise it starts
      and ends with non-whitespace characters. */
  function Trim(s: string): (r: string)
    ensures |r| <= |s|
    ensures r == [] <==> AllWhitespace(s)
    ensures r == [] || (!IsWhitespace(r[0]) && !IsWhitespace(r[|r| - 1]))
  {
    var e := TrimEnd(s);
    var r := TrimStart(e);
    assert r == [] ==> AllWhitespace(e) by {
      if r == [] {
        assert e[..|e|] == e;
      }
    }
    assert r == [] && AllWhitespace(e) ==> AllWhitespace(s) by {
      if r == [] && AllWhitespace(e) {
        forall i | 0 <= i < |s| ensures IsWhitespace(s[i]) {
          if i >= |e| {
            assert s[i] == s[|e|..][i - |e|];
          }
        }
      }
    }
    assert r != [] ==> r[|r| - 1] == e[|e| - 1];
    r
  }

  /** The guard of `handleSubmit`: `userInput.trim()` is a non-empty string,
      that is, JavaScript treats it as true. */
  predicate HasContent(s: string)
    ensures HasContent(s) <==> exists i :: 0 <= i < |s| && !IsWhitespace(s[i])
  {
    Trim(s) != ""
  }

  // ---------------------------------------------------------------------
  // The form's state and its two transitions
  // ---------------------------------------------------------------------

  /** The two pieces of state of the StreamList component. */
  datatype Form = Form(userInput: string, submittedInputs: seq<string>)

  /** The state the component is mounted with: an empty buffer, no entries. */
  const InitialForm: Form := Form("", [])

  /** Every submitted entry has content: the invariant the form keeps. */
  ghost predicate EntriesHaveContent(f: Form)
  {
    forall k :: 0 <= k < |f.submittedInputs| ==> HasContent(f.submittedInputs[k])
  }

  /** `handleInputChange`: the buffer becomes the input field's value; the
      list is untouched. */
  function InputChanged(f: Form, value: string): (g: Form)
    ensures g.userInput == value && g.submittedInputs == f.submittedInputs
  {
    f.(userInput := value)
  }

  /** `handleSubmit`: with content in the buffer, the buffer as typed is
      appended to the list and the buffer is cleared; with an empty or
      all-whitespace buffer, nothing changes. */
  function Submitted(f: Form): (g: Form)
    ensures HasContent(f.userInput) ==>
              |g.submittedInputs| == |f.submittedInputs| + 1 &&
              g.submittedInputs[..|f.submittedInputs|] == f.submittedInputs &&
              g.submittedInputs[|f.submittedInputs|] == f.userInput &&
              g.userInput == ""
    ensures AllWhitespace(f.userInput) ==> g == f
  {
    if HasContent(f.userInput) then
      Form("", f.submittedInputs + [f.userInput])
    else f
  }

  /** Submitting twice in a row stores the buffer once: the first submission
      clears the buffer and the second finds nothing to store. */
  lemma SubmitTwiceIsOnce(f: Form)
    ensures Submitted(Submitted(f)) == Submitted(f)
  {
  }

  /** Both transitions keep every stored entry non-blank. */
  lemma TransitionsKeepEntriesHaveContent(f: Form, value: string)
    requires EntriesHaveContent(f)
    ensures EntriesHaveContent(InputChanged(f, value))
    ensures EntriesHaveContent(Submitted(f))
  {
    var g := Submitted(f);
    forall k | 0 <= k < |g.submittedInputs| ensures HasContent(g.submittedInputs[k]) {
      if k < |f.submittedInputs| {
        assert g.submittedInputs[k] == g.submittedInputs[..|f.submittedInputs|][k];
      }
    }
  }

  // ---------------------------------------------------------------------
  // The component
  // ---------------------------------------------------------------------

  /** The StreamList component: its two state variables as fields, its two
      event handlers as methods. */
  class StreamListForm {
    var userInput: string
    var submittedInputs: seq<string>

    /** The abstract state of the component. */
    function State(): Form
      reads this
    {
      Form(userInput, submittedInputs)
    }

    ghost predicate Valid()
      reads this
    {
      EntriesHaveContent(State())
    }

    constructor ()
      ensures Valid()
      ensures State() == InitialForm
    {
      userInput := "";
      submittedInputs := [];
    }

    /** `handleInputChange`. */
    method HandleInputChange(value: string)
      requires Valid()
      modifies this
      ensures Valid()
      ensures State() == InputChanged(old(State()), value)
    {
      userInput := value;
    }

    /** `handleSubmit`. */
    method HandleSubmit()
      requires Valid()
      modifies this
      ensures Valid()
      ensures State() == Submitted(old(State()))
    {
      TransitionsKeepEntriesHaveContent(State(), userInput);
      if HasContent(userInput) {
        submittedInputs := submittedInputs + [userInput];
        userInput := "";
      }
    }
  }

  /** A blank submission is ignored: the list stays empty and the buffer keeps
      what was typed. */
  method BlankSubmissionScenario()
  {
    var form := new StreamListForm();
    form.HandleInputChange(" \t ");
    assert AllWhitespace(" \t ");
    form.HandleSubmit();
    assert form.submittedInputs == [] && form.userInput == " \t ";
  }

  /** A padded entry is stored as typed, and pressing submit again on the
      cleared buffer stores nothing more. */
  method PaddedSubmissionScenario()
  {
    var form := new StreamListForm();
    form.HandleInputChange(" Dune ");
    assert !AllWhitespace(" Dune ") by {
      assert !IsWhitespace(" Dune "[1]);
    }
    form.HandleSubmit();
    assert form.submittedInputs == [" Dune "] && form.userInput == "";

    form.HandleSubmit();
    assert form.submittedInputs == [" Dune "];
  }
}
