/** The application error type of lib/errors.go and its constructors. */
module Errors {
  import opened Strings

  /** AppError: a message and the process exit code it maps to. */
  datatype AppError = AppError(message: string, code: int)

  // The error codes, numbered from 400 in declaration order (Go's `iota + 400`).
  const InvalidFormatCode: int := 400
  const InvalidLevelCode: int := InvalidFormatCode + 1
  const InvalidColorCode: int := InvalidLevelCode + 1
  const UnresolvableFsPath: int := InvalidColorCode + 1

  lemma ErrorCodeValues()
    ensures InvalidFormatCode == 400 && InvalidLevelCode == 401
    ensures InvalidColorCode == 402 && UnresolvableFsPath == 403
  {
  }

  const ErrorPrefix := "Error("
  const ErrorInfix := "): "

  /**
    AppError.Error(): "Error(<code>): <message>". The rendering is read back:
    between "Error(" and "): " stand the canonical `%d` digits of the code,
    which parse back to it, and the message is the tail of the text.
  */
  function ErrorText(e: AppError): (r: string)
    ensures |r| > |ErrorPrefix| + |ErrorInfix| + |e.message|
    ensures r[..|ErrorPrefix|] == ErrorPrefix
    ensures r[|r| - |e.message| - |ErrorInfix|..|r| - |e.message|] == ErrorInfix
    ensures r[|r| - |e.message|..] == e.message
    ensures IntDigits(r[|ErrorPrefix|..|r| - |e.message| - |ErrorInfix|])
    ensures ParseInt(r[|ErrorPrefix|..|r| - |e.message| - |ErrorInfix|]) == e.code
  {
    var d := IntToDecimal(e.code);
    var r := ErrorPrefix + d + ErrorInfix + e.message;
    assert r[|ErrorPrefix|..|r| - |e.message| - |ErrorInfix|] == d;
    assert r[|r| - |e.message| - |ErrorInfix|..|r| - |e.message|] == ErrorInfix;
    IntDecimalRoundTrip(e.code);
    r
  }

  const InvalidArgumentText := "Invalid argument "
  const ValidOptionsText := ". Valid options are: "

  /**
    InvalidArgError(name, value, options, code): the given code and the message
    "Invalid argument <name>: <value>. Valid options are: <options joined by ', '>".
  */
  function InvalidArgError(name: string, value: string, options: seq<string>, code: int): (r: AppError)
    ensures r.code == code
    ensures var head := InvalidArgumentText + name + ": " + value;
      |r.message| >= |head| && r.message[..|head|] == head
    ensures var tail := ValidOptionsText + Join(options, ", ");
      |r.message| >= |tail| && r.message[|r.message| - |tail|..] == tail
    ensures |r.message| == |InvalidArgumentText + name + ": " + value| + |ValidOptionsText + Join(options, ", ")|
  {
    AppError(InvalidArgumentText + name + ": " + value + ValidOptionsText + Join(options, ", "), code)
  }

  const UnresolvableText := "Unable to resolve file system path "

  /** UnresolvablePathError(p): code 403 and a message ending in the path. */
  function UnresolvablePathError(fsPath: string): (r: AppError)
    ensures r.code == 403
    ensures |r.message| == |UnresolvableText| + |fsPath|
    ensures r.message[..|UnresolvableText|] == UnresolvableText
    ensures r.message[|UnresolvableText|..] == fsPath
  {
    AppError(UnresolvableText + fsPath, UnresolvableFsPath)
  }

  /** Distinct paths give distinct errors: the path can be read back from the message. */
  lemma UnresolvablePathErrorInjective(p: string, q: string)
    requires UnresolvablePathError(p) == UnresolvablePathError(q)
    ensures p == q
  {
    var mp := UnresolvablePathError(p).message;
    assert p == mp[|UnresolvableText|..];
  }
}
