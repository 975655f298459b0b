/**
 * The notepad of `AirBoardWorkspace` (src/components/AirBoardWorkspace.tsx):
 * each edit is an updater `prev -> next` on the text, plus the export guard
 * and the character counter.
 */
module Workspace {

  /** `prev.slice(0, -1)`: everything but the last character; "" stays "". */
  function DropLast(s: string): (r: string)
    ensures s == [] ==> r == []
    ensures s != [] ==> r + [s[|s| - 1]] == s
  {
    if s == [] then [] else s[..|s| - 1]
  }

  /** `handleKeyPress`: the three named keys, and any other key text verbatim. */
  function KeyPress(content: string, key: string): string
  {
    if key == "BACKSPACE" then DropLast(content)
    else if key == "SPACE" then content + " "
    else if key == "ENTER" then content + "\n"
    else content + key
  }

  /** The text each key appends (nothing for BACKSPACE). */
  function Typed(key: string): string {
    if key == "BACKSPACE" then ""
    else if key == "SPACE" then " "
    else if key == "ENTER" then "\n"
    else key
  }

  /**
   * BACKSPACE removes exactly the last character (and leaves "" alone);
   * every other key keeps the old text as a prefix and adds its own text
   * after it: one blank, one newline, or the key itself.
   */
  lemma KeyPressEdits(content: string, key: string)
    ensures key == "BACKSPACE" ==>
      if content == [] then KeyPress(content, key) == []
      else KeyPress(content, key) + [content[|content| - 1]] == content
    ensures key != "BACKSPACE" ==>
      && |KeyPress(content, key)| == |content| + |Typed(key)|
      && KeyPress(content, key)[..|content|] == content
      && KeyPress(content, key)[|content|..] == Typed(key)
    ensures key == "SPACE" ==> Typed(key) == [' ']
    ensures key == "ENTER" ==> Typed(key) == ['\n']
  {
  }

  /** BACKSPACE undoes any key press that adds exactly one character. */
  lemma BackspaceUndoesOneCharacter(content: string, key: string)
    requires key != "BACKSPACE" && |Typed(key)| == 1
    ensures KeyPress(KeyPress(content, key), "BACKSPACE") == content
  {
    KeyPressEdits(content, key);
    assert KeyPress(content, key)[..|content|] == content;
  }

  /** `handleGestureBackspace`'s update (line 55). */
  function GestureBackspace(content: string): string {
    DropLast(content)
  }

  /** `handleGestureSpace`'s update (line 64). */
  function GestureSpace(content: string): string {
    content + " "
  }

  /** The gesture handlers edit the text exactly as the BACKSPACE and SPACE keys do. */
  lemma GestureHandlersMatchKeys(content: string)
    ensures GestureBackspace(content) == KeyPress(content, "BACKSPACE")
    ensures GestureSpace(content) == KeyPress(content, "SPACE")
  {
  }

  /** `content.length`, as the status line shows it. */
  function CharacterCount(content: string): nat {
    |content|
  }

  /** How each key press moves the displayed character count. */
  lemma CharacterCountAfterKeyPress(content: string, key: string)
    ensures CharacterCount(KeyPress(content, key)) ==
      if key == "BACKSPACE" then (if content == [] then 0 else CharacterCount(content) - 1)
      else CharacterCount(content) + |Typed(key)|
  {
    KeyPressEdits(content, key);
  }

  /** The characters `String.prototype.trim` removes: white space and line terminators. */
  predicate IsTrimmed(c: char) {
    || c == '\t' || c == '\n' || c == '\U{000B}' || c == '\U{000C}' || c == '\r' || c == ' '
    || c == '\U{00A0}' || c == '\U{1680}' || ('\U{2000}' <= c <= '\U{200A}')
    || c == '\U{2028}' || c == '\U{2029}' || c == '\U{202F}' || c == '\U{205F}'
    || c == '\U{3000}' || c == '\U{FEFF}'
  }

  function TrimStart(s: string): (r: string)
    ensures r != [] ==> !IsTrimmed(r[0])
  {
    if s != [] && IsTrimmed(s[0]) then TrimStart(s[1..]) else s
  }

  function TrimEnd(s: string): (r: string)
    ensures r != [] ==> !IsTrimmed(r[|r| - 1])
  {
    if s != [] && IsTrimmed(s[|s| - 1]) then TrimEnd(s[..|s| - 1]) else s
  }

  /** `s.trim()`. */
  function Trim(s: string): string {
    TrimEnd(TrimStart(s))
  }

  predicate Blank(s: string) {
    forall i :: 0 <= i < |s| ==> IsTrimmed(s[i])
  }

  lemma {:induction false} TrimStartEmpty(s: string)
    ensures TrimStart(s) == [] <==> Blank(s)
  {
    if s != [] && IsTrimmed(s[0]) {
      TrimStartEmpty(s[1..]);
      assert Blank(s) <==> Blank(s[1..]) by {
        if Blank(s[1..]) {
          forall i | 0 <= i < |s| ensures IsTrimmed(s[i]) {
            if i > 0 { assert s[i] == s[1..][i - 1]; }
          }
        }
      }
    } else if s != [] {
      assert !IsTrimmed(s[0]);
    }
  }

  lemma {:induction false} TrimEndEmpty(s: string)
    ensures TrimEnd(s) == [] <==> Blank(s)
  {
    if s != [] && IsTrimmed(s[|s| - 1]) {
      TrimEndEmpty(s[..|s| - 1]);
      assert Blank(s) <==> Blank(s[..|s| - 1]) by {
        if Blank(s[..|s| - 1]) {
          forall i | 0 <= i < |s| ensures IsTrimmed(s[i]) {
            if i < |s| - 1 { assert s[i] == s[..|s| - 1][i]; }
          }
        }
      }
    } else if s != [] {
      assert !IsTrimmed(s[|s| - 1]);
    }
  }

  /** `!s.trim()` holds exactly for text made only of white space (or nothing). */
  lemma TrimEmptyIffBlank(s: string)
    ensures Trim(s) == [] <==> Blank(s)
  {
    TrimStartEmpty(s);
    TrimEndEmpty(TrimStart(s));
    var t := TrimStart(s);
    if t != [] {
      assert !Blank(t) by { assert !IsTrimmed(t[0]); }
    }
  }

  datatype ExportFormat = Txt | Pdf

  /** What `handleExport` does: refuse, download the text, or announce PDF as unavailable. */
  datatype ExportOutcome = NothingToExport | Download(text: string) | PdfComingSoon

  function HandleExport(content: string, format: ExportFormat): ExportOutcome
  {
    if Trim(content) == [] then NothingToExport
    else if format == Txt then Download(content)
    else PdfComingSoon
  }

  /**
   * Export is refused exactly for empty or all-white-space text, in either
   * format; a text download carries the text untrimmed.
   */
  lemma ExportGuard(content: string, format: ExportFormat)
    ensures HandleExport(content, format) == NothingToExport <==> Blank(content)
    ensures !Blank(content) && format == Txt ==> HandleExport(content, format) == Download(content)
  {
    TrimEmptyIffBlank(content);
  }
}
