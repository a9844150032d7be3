// The punctuation of the NetQASM text format, shared by the text form of
// commands and the text parser. `netqasm/lang/symbols.py` is not part of
// this model; the values are those of the legacy `Symbols` class
// (`netqasm/subroutine.py`), with `$` as the macro marker.

module Symbols {
  const COMMENT_START: string := "//"
  const BRANCH_END: char := ':'
  const MACRO_START: char := '$'
  const ADDRESS_START: char := '@'
  const ARGS_OPEN: char := '('
  const ARGS_CLOSE: char := ')'
  const ARGS_DELIM: char := ','
  const INDEX_OPEN: char := '['
  const INDEX_CLOSE: char := ']'
  const SLICE_DELIM: char := ':'

  const PREAMBLE_START: char := '#'
  const PREAMBLE_NETQASM: string := "NETQASM"
  const PREAMBLE_APPID: string := "APPID"
  const PREAMBLE_DEFINE: string := "DEFINE"
  const DEFINE_OPEN: char := '{'
  const DEFINE_CLOSE: char := '}'
}
