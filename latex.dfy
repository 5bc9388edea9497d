/** The LaTeX error markers of the report (header.py, `format_err_msg` and
    `missing_file_error`). */
module Latex {
  import opened Text

  /** The opening of the red box, `\colorbox{red}{`. */
  const BoxOpen: string := "\\colorbox{red}{"

  /** `format_err_msg`: the text, with every underscore turned into a space,
      inside a red LaTeX box. */
  function FormatErrMsg(txt: string): (r: string)
    ensures |r| == |BoxOpen| + |txt| + 1
    ensures r[..|BoxOpen|] == BoxOpen && r[|r| - 1] == '}'
    ensures forall i :: 0 <= i < |txt| ==>
      r[|BoxOpen| + i] == (if txt[i] == '_' then ' ' else txt[i])
    ensures '_' !in r[|BoxOpen|..|r| - 1]
  {
    ReplaceUnderscoresIdempotent(txt);
    var r := BoxOpen + ReplaceUnderscores(txt) + "}";
    assert r[|BoxOpen|..|r| - 1] == ReplaceUnderscores(txt);
    r
  }

  /** What is inside the box is the text with its underscores replaced, so
      texts that differ only between '_' and ' ' give the same marker. */
  lemma FormatErrMsgUnwraps(txt: string, other: string)
    ensures var r := FormatErrMsg(txt); r[|BoxOpen|..|r| - 1] == ReplaceUnderscores(txt)
    ensures ReplaceUnderscores(txt) == ReplaceUnderscores(other) ==> FormatErrMsg(txt) == FormatErrMsg(other)
    ensures FormatErrMsg(ReplaceUnderscores(txt)) == FormatErrMsg(txt)
  {
    var r := FormatErrMsg(txt);
    assert r[|BoxOpen|..|r| - 1] == ReplaceUnderscores(txt);
    ReplaceUnderscoresIdempotent(txt);
    var o := FormatErrMsg(other);
    if ReplaceUnderscores(txt) == ReplaceUnderscores(other) {
      assert r == r[..|BoxOpen|] + r[|BoxOpen|..|r| - 1] + [r[|r| - 1]];
      assert o == o[..|BoxOpen|] + o[|BoxOpen|..|o| - 1] + [o[|o| - 1]];
      assert o[|BoxOpen|..|o| - 1] == ReplaceUnderscores(other);
    }
    var q := FormatErrMsg(ReplaceUnderscores(txt));
    assert q == q[..|BoxOpen|] + q[|BoxOpen|..|q| - 1] + [q[|q| - 1]];
    assert r == r[..|BoxOpen|] + r[|BoxOpen|..|r| - 1] + [r[|r| - 1]];
    assert q[|BoxOpen|..|q| - 1] == ReplaceUnderscores(ReplaceUnderscores(txt));
  }

  /** An exception as `missing_file_error` sees it: through `str(error)`. */
  datatype FileError = FileError(message: string)

  /** What `missing_file_error` returns: a LaTeX marker, or the exception itself. */
  datatype Report = Boxed(latex: string) | Unchanged(error: FileError)

  /** `missing_file_error`: a missing-file marker when the file name occurs
      in the message, else a missing-folder marker when "images" does, else
      the exception as it came. */
  function MissingFileError(error: FileError, fname: string): (r: Report)
    ensures r.Boxed? <==> Contains(error.message, fname) || Contains(error.message, "images")
    ensures Contains(error.message, fname) ==>
      r == Boxed(FormatErrMsg("Missing " + fname + " file"))
    ensures !Contains(error.message, fname) && Contains(error.message, "images") ==>
      r == Boxed(FormatErrMsg("Missing \"images\" folder when processing " + fname + " file"))
    ensures r.Unchanged? ==> r.error == error
  {
    if Contains(error.message, fname) then
      Boxed(FormatErrMsg("Missing " + fname + " file"))
    else if Contains(error.message, "images") then
      Boxed(FormatErrMsg("Missing \"images\" folder when processing " + fname + " file"))
    else
      Unchanged(error)
  }

  /** Every marker is a red box with no underscore inside, even when the
      file name has underscores. */
  lemma MissingFileErrorMarkers(error: FileError, fname: string)
    ensures var r := MissingFileError(error, fname);
      r.Boxed? ==> r.latex[..|BoxOpen|] == BoxOpen && '_' !in r.latex[|BoxOpen|..|r.latex| - 1]
  {
  }

  /** The empty file name occurs in every message, so it always yields the
      missing-file marker. */
  lemma MissingFileErrorEmptyName(error: FileError)
    ensures MissingFileError(error, "") == Boxed(FormatErrMsg("Missing  file"))
  {
    assert OccursAt(error.message, "", 0);
    assert "Missing " + "" + " file" == "Missing  file";
  }
}
