/** The ANSI escape sequences of ansicode/codes.go that the formatters and the request logger use. */
module AnsiCode {
  const EscapeBlock: string := "\U{1B}["
  const Reset: string := EscapeBlock + "0m"
  const Bold: string := EscapeBlock + "1m"
  const Red: string := EscapeBlock + "31m"
  const Green: string := EscapeBlock + "32m"
  const Blue: string := EscapeBlock + "34m"
  const Magenta: string := EscapeBlock + "35m"
  const Cyan: string := EscapeBlock + "36m"
  const White: string := EscapeBlock + "37m"
  const BlackBright: string := EscapeBlock + "30;1m"
  const RedBright: string := EscapeBlock + "31;1m"
  const YellowBright: string := EscapeBlock + "33;1m"
  const MagentaBright: string := EscapeBlock + "35;1m"
  const CyanBright: string := EscapeBlock + "36;1m"
  const RedBg: string := EscapeBlock + "41m"
  const RedBrightBg: string := EscapeBlock + "41;1m"
}
