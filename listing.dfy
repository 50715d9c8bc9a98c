/**
 * The numbered listing that both `vlog view` and the channel summary build
 * line by line: `**<n>.** <name> verified by <verifier> on <date>` for the
 * n-th row, in the order the store returned the rows.
 */
module Listing {
  import opened Records
  import opened Text

  /** The line for the row at 1-based position `n`; `localeTime` renders a stored timestamp. */
  function NumberedLine(n: nat, log: VerificationLog, localeTime: string -> string): string
  {
    "**" + Decimal(n) + LineBody(log, localeTime)
  }

  /** What follows the number: `.** <name> verified by <verifier> on <date>` and the newline. */
  function LineBody(log: VerificationLog, localeTime: string -> string): string
  {
    ".** " + log.verifiedUserDisplayName + " verified by " + log.verifierUsername
      + " on " + localeTime(log.timestamp) + "\n"
  }

  /** One line per row, numbered from 1 in row order. */
  function Lines(logs: seq<VerificationLog>, localeTime: string -> string): seq<string>
  {
    seq(|logs|, i requires 0 <= i < |logs| => NumberedLine(i + 1, logs[i], localeTime))
  }

  /** The number a reader takes from the head of a line: the digits after the opening `**`. */
  function LineNumber(line: string): nat
  {
    if |line| >= 2 && line[..2] == "**" then ParseDecimal(LeadingDigits(line[2..])) else 0
  }

  /** The listing has one line per row, and reading the numbers back gives 1, 2, ..., k. */
  lemma NumberingReadsBack(logs: seq<VerificationLog>, localeTime: string -> string, i: nat)
    requires i < |logs|
    ensures |Lines(logs, localeTime)| == |logs|
    ensures LineNumber(Lines(logs, localeTime)[i]) == i + 1
  {
    var line := Lines(logs, localeTime)[i];
    var digits := Decimal(i + 1);
    var rest := LineBody(logs[i], localeTime);
    assert line == "**" + digits + rest;
    assert line[2..] == digits + rest;
    LeadingDigitsOf(digits, rest);
    DecimalRoundTrip(i + 1);
  }
}
