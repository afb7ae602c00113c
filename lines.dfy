/** The lines the program logs. The trace records which line was logged;
    `Text` gives its wording, without the timestamp the logger puts in front
    of every line and the "ERROR: " it puts in front of fatal ones. */
module Lines {
  import opened Endpoints

  datatype Line =
    | Syncing(source: string, target: string)
    | TempDirFailure(err: string)
    | CloneFailure(sourceURL: string, err: string)
    | RemoteFailure(err: string)
    | PushFailure(err: string)
    | UpToDate
    | Completed
    | Processing(id: int)
    | EnvLoadFailure
    | MissingCredentials
    | OpenFailure(err: string)
    | ReadFailure(err: string)
    | ParseFailure(err: string)

  const ProcessingPrefix: string := "Processing repository ID "

  function Text(l: Line): string
  {
    match l
    case Syncing(source, target) => "Syncing " + source + " to " + target
    case TempDirFailure(err) => "Failed to create temporary directory: " + err
    case CloneFailure(sourceURL, err) => "Failed to clone " + sourceURL + ": " + err
    case RemoteFailure(err) => "Failed to add target remote: " + err
    case PushFailure(err) => "Failed to push all branches to target: " + err
    case UpToDate => "All branches are already up-to-date"
    case Completed => "Sync completed"
    case Processing(id) => ProcessingPrefix + IdText(id)
    case EnvLoadFailure => "Error loading .env file"
    case MissingCredentials => "One or more required " + "environment variables are missing"
    case OpenFailure(err) => "Failed to open JSON file: " + err
    case ReadFailure(err) => "Failed to read JSON file: " + err
    case ParseFailure(err) => "Failed to parse JSON: " + err
  }

  function DigitChar(d: nat): char
    requires d < 10
  {
    (d + '0' as int) as char
  }

  function Digits(n: nat): string
  {
    if n < 10 then [DigitChar(n)] else Digits(n / 10) + [DigitChar(n % 10)]
  }

  /** The decimal rendering of an id, as the `%d` verb prints it. */
  function IdText(id: int): string
  {
    if id < 0 then "-" + Digits(-id) else Digits(id)
  }

  predicate IsDigit(c: char)
  {
    '0' <= c <= '9'
  }

  /** The number a string of decimal digits denotes. */
  function Value(s: string): nat
    requires forall i :: 0 <= i < |s| ==> IsDigit(s[i])
  {
    if s == [] then 0
    else
      assert IsDigit(s[|s| - 1]);
      Value(s[..|s| - 1]) * 10 + (s[|s| - 1] as int - '0' as int)
  }

  /** Reading the decimal rendering back gives the number. */
  lemma {:induction false} DigitsValue(n: nat)
    ensures |Digits(n)| > 0 && forall i :: 0 <= i < |Digits(n)| ==> IsDigit(Digits(n)[i])
    ensures Value(Digits(n)) == n
  {
    var s := Digits(n);
    if n < 10 {
      assert s[..|s| - 1] == [];
    } else {
      DigitsValue(n / 10);
      assert s[..|s| - 1] == Digits(n / 10);
    }
  }

  /** The rendering starts with '-' exactly for negative ids. */
  lemma SignShows(id: int)
    ensures |IdText(id)| > 0 && (IdText(id)[0] == '-' <==> id < 0)
  {
    DigitsValue(if id < 0 then -id else id);
  }

  /** Different ids are rendered differently. */
  lemma IdTextInjective(a: int, b: int)
    requires IdText(a) == IdText(b)
    ensures a == b
  {
    SignShows(a);
    SignShows(b);
    if a < 0 {
      DigitsValue(-a);
      DigitsValue(-b);
      assert IdText(a)[1..] == Digits(-a) && IdText(b)[1..] == Digits(-b);
    } else {
      DigitsValue(a);
      DigitsValue(b);
    }
  }

  /** A progress line names its pair: two progress lines with the same text
      announce the same id. */
  lemma ProgressNamesPair(a: int, b: int)
    requires Text(Processing(a)) == Text(Processing(b))
    ensures a == b
  {
    var n := |ProcessingPrefix|;
    assert Text(Processing(a))[n..] == IdText(a);
    assert Text(Processing(b))[n..] == IdText(b);
    IdTextInjective(a, b);
  }

  /** In the log, exactly the progress lines start with the progress prefix,
      so the progress lines of a run can be picked out of its log. */
  lemma ProgressLinesStandOut(l: Line)
    ensures HasPrefix(Text(l), ProcessingPrefix) <==> l.Processing?
  {
    if !l.Processing? {
      var s := Text(l);
      var head := FirstLetter(l);
      assert |s| > 0 && s[0] == head != 'P';
      if HasPrefix(s, ProcessingPrefix) {
        HeadOfPrefix(s, ProcessingPrefix);
      }
    }
  }

  /** The letter each non-progress line starts with. */
  lemma FirstLetter(l: Line) returns (c: char)
    requires !l.Processing?
    ensures |Text(l)| > 0 && Text(l)[0] == c && c != 'P'
  {
    match l
    case Syncing(source, target) => c := 'S';
    case TempDirFailure(err) => c := 'F';
    case CloneFailure(url, err) => c := 'F';
    case RemoteFailure(err) => c := 'F';
    case PushFailure(err) => c := 'F';
    case OpenFailure(err) => c := 'F';
    case ReadFailure(err) => c := 'F';
    case ParseFailure(err) => c := 'F';
    case UpToDate => c := 'A';
    case Completed => c := 'S';
    case EnvLoadFailure => c := 'E';
    case MissingCredentials => c := 'O';
  }

  lemma HeadOfPrefix(s: string, prefix: string)
    requires |prefix| > 0 && HasPrefix(s, prefix)
    ensures s[0] == prefix[0]
  {
    assert s[..|prefix|][0] == s[0];
  }
}
