/** The formatter's configuration: the public dataclass fields of
    `Formatter` with their defaults, plus the separator and indentation
    strings `init_internals` derives from them once per `serialize` call. */
module Settings {
  import opened Text

  datatype EolStyle = Crlf | Lf

  datatype Config = Config(
    jsonEolStyle: EolStyle,
    maxInlineLength: int,
    maxInlineComplexity: int,
    maxCompactListComplexity: int,
    nestedBracketPadding: bool,
    simpleBracketPadding: bool,
    colonPadding: bool,
    commaPadding: bool,
    alwaysExpandDepth: int,
    indentSpaces: int,
    useTabToIndent: bool,
    tableDictMinimumSimilarity: int,
    tableListMinimumSimilarity: int,
    alignExpandedPropertyNames: bool,
    dontJustifyNumbers: bool,
    prefixString: string,
    ensureAscii: bool,
    eastAsianStringWidths: bool,
    multilineCompactDict: bool,
    // derived by init_internals (empty until then, as __post_init__ leaves them)
    eolStr: string,
    indentStr: string,
    paddedCommaStr: string,
    paddedColonStr: string)

  /** `Formatter()` with every field at its default. */
  function Default(): Config {
    Config(Lf, 80, 2, 1, true, false, true, true, -1, 4, false, 75, 75,
           false, false, "", true, false, false, "", "", "", "")
  }

  /** `init_internals`: the derived strings are each a function of one
      option, and no option changes. */
  function InitInternals(c: Config): (r: Config)
    ensures r.eolStr == (if c.jsonEolStyle == Crlf then "\r\n" else "\n")
    ensures r.indentStr == (if c.useTabToIndent then "\t" else Fill(' ', c.indentSpaces))
    ensures |r.paddedCommaStr| == (if c.commaPadding then 2 else 1) && r.paddedCommaStr[0] == ','
    ensures |r.paddedColonStr| == (if c.colonPadding then 2 else 1) && r.paddedColonStr[0] == ':'
    ensures r == c.(eolStr := r.eolStr, indentStr := r.indentStr,
                    paddedCommaStr := r.paddedCommaStr, paddedColonStr := r.paddedColonStr)
    ensures Initialized(r)
  {
    c.(eolStr := if c.jsonEolStyle == Crlf then "\r\n" else "\n",
       indentStr := if c.useTabToIndent then "\t" else Fill(' ', c.indentSpaces),
       paddedCommaStr := if c.commaPadding then ", " else ",",
       paddedColonStr := if c.colonPadding then ": " else ":")
  }

  /** The derived strings agree with the options they come from. */
  predicate Initialized(c: Config) {
    c.eolStr == (if c.jsonEolStyle == Crlf then "\r\n" else "\n") &&
    c.indentStr == (if c.useTabToIndent then "\t" else Fill(' ', c.indentSpaces)) &&
    c.paddedCommaStr == (if c.commaPadding then ", " else ",") &&
    c.paddedColonStr == (if c.colonPadding then ": " else ":")
  }

  /** `indent`: what it appends to the buffer for a line at this depth
      (the per-depth cache only memoises this string). */
  function Indent(c: Config, depth: int): string {
    c.prefixString + Repeat(c.indentStr, depth)
  }

  /** `str_len` on its ASCII branch: the character count. */
  function StrLen(s: string): nat {
    |s|
  }

  /** Whether inline brackets get inner spaces: nested padding for a
      container holding containers (complexity >= 2), simple padding otherwise. */
  function UseBracketPadding(c: Config, complexity: int): bool {
    if complexity >= 2 then c.nestedBracketPadding else c.simpleBracketPadding
  }
}
