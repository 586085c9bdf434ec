/**
 * The settings `parse_args` derives after the command line is read: file
 * names that default to forms built from the prefix, the user index, the
 * command and today's date (`%Y%m%d`), and the start row or page, whose
 * default depends on the command. Today's date is a parameter.
 */
module Defaults {
  import opened Wrappers
  import opened Text

  /** The commands the tool accepts. */
  datatype Command = Handle | Handles | Count | Download | RewriteAliases

  function CommandName(c: Command): (name: string) {
    match c
    case Handle => "handle"
    case Handles => "handles"
    case Count => "count"
    case Download => "download"
    case RewriteAliases => "rewrite-aliases"
  }

  /** The `choices` check on the command argument: only the five names are accepted. */
  function ParseCommand(name: string): (c: Option<Command>)
    ensures c.Some? ==> CommandName(c.value) == name
  {
    if name == "handle" then Some(Handle)
    else if name == "handles" then Some(Handles)
    else if name == "count" then Some(Count)
    else if name == "download" then Some(Download)
    else if name == "rewrite-aliases" then Some(RewriteAliases)
    else None
  }

  lemma CommandNameRoundTrip(c: Command)
    ensures ParseCommand(CommandName(c)) == Some(c)
  {
  }

  /** A calendar date as `date.today()` gives it. */
  datatype Date = Date(year: int, month: int, day: int)

  /** A date `%Y%m%d` renders in exactly eight digits. */
  predicate ValidDate(d: Date) {
    1000 <= d.year <= 9999 && 1 <= d.month <= 12 && 1 <= d.day <= 31
  }

  lemma Pow10Values()
    ensures Pow10(2) == 100 && Pow10(4) == 10000
  {
    assert Pow10(1) == 10;
    assert Pow10(3) == 1000;
  }

  /** `strftime("%Y%m%d")`: four digits of year, two of month, two of day. */
  function Stamp(d: Date): (s: string)
    requires ValidDate(d)
    ensures |s| == 8 && AllDigits(s)
  {
    Pow10Values();
    PadDigits(d.year, 4) + PadDigits(d.month, 2) + PadDigits(d.day, 2)
  }

  /** Reads an eight-digit stamp back into a date. */
  function ParseStamp(s: string): (d: Option<Date>)
    ensures d.Some? ==> |s| == 8
  {
    if |s| == 8 && AllDigits(s) then
      var d := Date(ParseNat(s[..4]), ParseNat(s[4..6]), ParseNat(s[6..]));
      if ValidDate(d) then Some(d) else None
    else None
  }

  lemma StampRoundTrip(d: Date)
    requires ValidDate(d)
    ensures ParseStamp(Stamp(d)) == Some(d)
  {
    Pow10Values();
    var y, m, dd := PadDigits(d.year, 4), PadDigits(d.month, 2), PadDigits(d.day, 2);
    var s := Stamp(d);
    assert s[..4] == y && s[4..6] == m && s[6..] == dd;
    PadDigitsRoundTrip(d.year, 4);
    PadDigitsRoundTrip(d.month, 2);
    PadDigitsRoundTrip(d.day, 2);
  }

  /** `<command>-<yyyymmdd><ext>`, the default name of the output file and of the log. */
  function DatedName(c: Command, d: Date, ext: string): (name: string)
    requires ValidDate(d)
    ensures |name| == |CommandName(c)| + 9 + |ext|
  {
    CommandName(c) + "-" + Stamp(d) + ext
  }

  /** Splits a dated name from the right (command names may hold `-`) into its command and date. */
  function ParseDatedName(s: string, ext: string): (r: Option<(Command, Date)>) {
    if |s| < 9 + |ext| || s[|s| - |ext|..] != ext then None
    else
      var body := s[..|s| - |ext|];
      var cut := |body| - 9;
      if body[cut] != '-' then None
      else match (ParseCommand(body[..cut]), ParseStamp(body[cut + 1..]))
        case (Some(c), Some(d)) => Some((c, d))
        case _ => None
  }

  lemma DatedNameRoundTrip(c: Command, d: Date, ext: string)
    requires ValidDate(d)
    ensures ParseDatedName(DatedName(c, d, ext), ext) == Some((c, d))
  {
    var name, stamp := CommandName(c), Stamp(d);
    var s := DatedName(c, d, ext);
    var body := name + "-" + stamp;
    assert s == body + ext;
    assert s[|s| - |ext|..] == ext && s[..|s| - |ext|] == body;
    var cut := |body| - 9;
    assert cut == |name|;
    assert body[cut] == '-' && body[..cut] == name && body[cut + 1..] == stamp;
    CommandNameRoundTrip(c);
    StampRoundTrip(d);
  }

  /** The arguments as `argparse` leaves them; an option that was not given is None. */
  datatype Options = Options(
    command: Command, prefix: string, index: string,
    certfile: Option<string>, keyfile: Option<string>,
    file: Option<string>, output: Option<string>, log: Option<string>,
    start: Option<int>)

  /** The arguments once every default is filled in. */
  datatype Settings = Settings(
    command: Command, prefix: string, index: string,
    certfile: string, keyfile: string, file: string, output: string, log: string,
    start: int)

  /** Python's `value or default` on an optional string: an absent or empty value gives way. */
  function Or(value: Option<string>, default: string): (r: string) {
    if value.Some? && value.value != "" then value.value else default
  }

  function DefaultCertfile(prefix: string, index: string): (name: string) {
    prefix + "_USER01_" + index + "_certificate_only.pem"
  }

  function DefaultKeyfile(prefix: string, index: string): (name: string) {
    prefix + "_USER01_" + index + "_privkey.pem"
  }

  function DefaultStart(c: Command): (start: int) {
    if c == RewriteAliases then 1 else 0
  }

  /** The defaults `parse_args` fills in once the arguments are parsed. */
  function Resolve(o: Options, today: Date): (s: Settings)
    requires ValidDate(today)
    ensures s.command == o.command && s.prefix == o.prefix && s.index == o.index
  {
    Settings(
      o.command, o.prefix, o.index,
      Or(o.certfile, DefaultCertfile(o.prefix, o.index)),
      Or(o.keyfile, DefaultKeyfile(o.prefix, o.index)),
      Or(o.file, CommandName(o.command) + ".csv"),
      Or(o.output, DatedName(o.command, today, ".csv")),
      Or(o.log, DatedName(o.command, today, ".log")),
      if o.start.Some? then o.start.value else DefaultStart(o.command))
  }

  /** Settings handed back as explicit options. */
  function Given(s: Settings): (o: Options) {
    Options(s.command, s.prefix, s.index, Some(s.certfile), Some(s.keyfile),
            Some(s.file), Some(s.output), Some(s.log), Some(s.start))
  }

  // Properties of the defaults

  /** An explicit start is kept, 0 included; without one, `rewrite-aliases` starts at row 1 and every other command at 0. */
  lemma ResolveStart(o: Options, today: Date)
    requires ValidDate(today)
    ensures o.start.Some? ==> Resolve(o, today).start == o.start.value
    ensures o.start.None? && o.command == RewriteAliases ==> Resolve(o, today).start == 1
    ensures o.start.None? && o.command != RewriteAliases ==> Resolve(o, today).start == 0
  {
  }

  /** A non-empty name given on the command line is used as it is. */
  lemma ResolveKeepsGivenNames(o: Options, today: Date)
    requires ValidDate(today)
    ensures var s := Resolve(o, today);
      && (o.certfile.Some? && o.certfile.value != "" ==> s.certfile == o.certfile.value)
      && (o.keyfile.Some? && o.keyfile.value != "" ==> s.keyfile == o.keyfile.value)
      && (o.file.Some? && o.file.value != "" ==> s.file == o.file.value)
      && (o.output.Some? && o.output.value != "" ==> s.output == o.output.value)
      && (o.log.Some? && o.log.value != "" ==> s.log == o.log.value)
  {
  }

  /**
   * Without a name (or with an empty one) the defaults apply: the certificate and key
   * after prefix and user index, the input after the command, and the output and log
   * after the command and today's date, which can be read back from the name.
   */
  lemma ResolveDefaultNames(o: Options, today: Date)
    requires ValidDate(today)
    ensures var s := Resolve(o, today);
      && (o.certfile.None? || o.certfile == Some("") ==> s.certfile == o.prefix + "_USER01_" + o.index + "_certificate_only.pem")
      && (o.keyfile.None? || o.keyfile == Some("") ==> s.keyfile == o.prefix + "_USER01_" + o.index + "_privkey.pem")
      && (o.file.None? || o.file == Some("") ==> s.file == CommandName(o.command) + ".csv")
      && (o.output.None? || o.output == Some("") ==> ParseDatedName(s.output, ".csv") == Some((o.command, today)))
      && (o.log.None? || o.log == Some("") ==> ParseDatedName(s.log, ".log") == Some((o.command, today)))
  {
    DatedNameRoundTrip(o.command, today, ".csv");
    DatedNameRoundTrip(o.command, today, ".log");
  }

  /** Every resolved name is non-empty. */
  lemma ResolvedNamesNonEmpty(o: Options, today: Date)
    requires ValidDate(today)
    ensures var s := Resolve(o, today);
      s.certfile != "" && s.keyfile != "" && s.file != "" && s.output != "" && s.log != ""
  {
    var c := CommandName(o.command);
    assert |c + ".csv"| > 0;
    assert |DatedName(o.command, today, ".csv")| > 0;
    assert |DatedName(o.command, today, ".log")| > 0;
  }

  /** Filling in defaults twice changes nothing, on any day: resolved settings are a fixed point. */
  lemma ResolveIdempotent(o: Options, today: Date, later: Date)
    requires ValidDate(today) && ValidDate(later)
    ensures Resolve(Given(Resolve(o, today)), later) == Resolve(o, today)
  {
    ResolvedNamesNonEmpty(o, today);
  }

  /**
   * With the defaults, the tool never appends its output to the file it reads, nor
   * logs into either: the three names differ for every command and date, and so do
   * the certificate and key.
   */
  lemma DefaultNamesDistinct(c: Command, today: Date, prefix: string, index: string)
    requires ValidDate(today)
    ensures CommandName(c) + ".csv" != DatedName(c, today, ".csv")
    ensures DatedName(c, today, ".csv") != DatedName(c, today, ".log")
    ensures CommandName(c) + ".csv" != DatedName(c, today, ".log")
    ensures DefaultCertfile(prefix, index) != DefaultKeyfile(prefix, index)
  {
    assert |CommandName(c) + ".csv"| < |DatedName(c, today, ".csv")|;
    var a, b := DatedName(c, today, ".csv"), DatedName(c, today, ".log");
    var input := CommandName(c) + ".csv";
    assert a[|a| - 3] == 'c' && b[|b| - 3] == 'l' && input[|input| - 3] == 'c';
    var cert, key := DefaultCertfile(prefix, index), DefaultKeyfile(prefix, index);
    assert |cert| == |key| + 9;
  }
}
