/**
 The evidence file: one line of canonical JSON per record.

 The language's JSON parser is a parameter; all that is asked of it is that it reads canonical text
 back.  A parsed line is a finite map, because the program casts what it parsed without checking it.
 */
module Evidence {
  import opened Wrappers
  import opened Canonical
  import opened Log
  import opened LogVerify
  import opened Sorting
  import opened Splitting

  /** "record" */
  const RECORD_KEY: Text := [0x72, 0x65, 0x63, 0x6f, 0x72, 0x64]
  /** "kind" */
  const KIND_KEY: Text := [0x6b, 0x69, 0x6e, 0x64]
  /** "version" */
  const VERSION_KEY: Text := [0x76, 0x65, 0x72, 0x73, 0x69, 0x6f, 0x6e]
  /** "exam_id" */
  const EXAM_ID_KEY: Text := [0x65, 0x78, 0x61, 0x6d, 0x5f, 0x69, 0x64]
  /** "signers" */
  const SIGNERS_KEY: Text := [0x73, 0x69, 0x67, 0x6e, 0x65, 0x72, 0x73]
  /** "entry_count" */
  const ENTRY_COUNT_KEY: Text := [0x65, 0x6e, 0x74, 0x72, 0x79, 0x5f, 0x63, 0x6f, 0x75, 0x6e, 0x74]
  /** "checkpoint_count" */
  const CHECKPOINT_COUNT_KEY: Text := [0x63, 0x68, 0x65, 0x63, 0x6b, 0x70, 0x6f, 0x69, 0x6e, 0x74, 0x5f, 0x63, 0x6f,
    0x75, 0x6e, 0x74]
  /** "hash" */
  const HASH_KEY: Text := [0x68, 0x61, 0x73, 0x68]
  /** "signature" */
  const SIGNATURE_KEY: Text := [0x73, 0x69, 0x67, 0x6e, 0x61, 0x74, 0x75, 0x72, 0x65]
  /** "signerPublicKey" */
  const SIGNER_KEY: Text := [0x73, 0x69, 0x67, 0x6e, 0x65, 0x72, 0x50, 0x75, 0x62, 0x6c, 0x69, 0x63, 0x4b, 0x65, 0x79]
  /** "anchors" */
  const ANCHORS_KEY: Text := [0x61, 0x6e, 0x63, 0x68, 0x6f, 0x72, 0x73]
  /** "backend" */
  const BACKEND_KEY: Text := [0x62, 0x61, 0x63, 0x6b, 0x65, 0x6e, 0x64]
  /** "tsa" */
  const TSA_KEY: Text := [0x74, 0x73, 0x61]
  /** "url" */
  const URL_KEY: Text := [0x75, 0x72, 0x6c]
  /** "token" */
  const TOKEN_KEY: Text := [0x74, 0x6f, 0x6b, 0x65, 0x6e]
  /** "genTime" */
  const GEN_TIME_KEY: Text := [0x67, 0x65, 0x6e, 0x54, 0x69, 0x6d, 0x65]
  /** "imprint" */
  const IMPRINT_KEY: Text := [0x69, 0x6d, 0x70, 0x72, 0x69, 0x6e, 0x74]
  /** "hashAlgorithm" */
  const HASH_ALGORITHM_KEY: Text := [0x68, 0x61, 0x73, 0x68, 0x41, 0x6c, 0x67, 0x6f, 0x72, 0x69, 0x74, 0x68, 0x6d]
  /** "header" */
  const HEADER: Text := [0x68, 0x65, 0x61, 0x64, 0x65, 0x72]
  /** "entry" */
  const ENTRY: Text := [0x65, 0x6e, 0x74, 0x72, 0x79]
  /** "checkpoint" */
  const CHECKPOINT: Text := [0x63, 0x68, 0x65, 0x63, 0x6b, 0x70, 0x6f, 0x69, 0x6e, 0x74]
  /** "zero-window-evidence" */
  const EVIDENCE_KIND: Text := [0x7a, 0x65, 0x72, 0x6f, 0x2d, 0x77, 0x69, 0x6e, 0x64, 0x6f, 0x77, 0x2d, 0x65, 0x76,
    0x69, 0x64, 0x65, 0x6e, 0x63, 0x65]

  const NEWLINE: CodeUnit := 0x0a

  type Record = map<Text, Meaning>
  type Parser = Text -> Option<Meaning>

  /** The parser reads every canonical text back as what it says. */
  ghost predicate Inverts(parse: Parser) {
    forall v | Proper(v) && Accepts(v) :: parse(Print(v)) == Some(MeaningOf(v))
  }

  /** The reader of canonical text is such a parser. */
  function CanonicalParser(t: Text): Option<Meaning> {
    var r := ReadValue(t);
    if r.Read? && r.rest == [] then Some(r.value) else None
  }

  lemma CanonicalParserInverts()
    ensures Inverts(CanonicalParser)
  {
    hide ReadValue, Print, MeaningOf, Accepts, Proper;
    forall v | Proper(v) && Accepts(v) ensures CanonicalParser(Print(v)) == Some(MeaningOf(v)) {
      ReadPrinted(v, []);
      assert Print(v) + [] == Print(v);
    }
  }

  // ---------- records ----------

  function SeqOf(e: LogEntry): int {
    e.seqNo
  }

  function AnchorValue(a: Anchor): (v: Value)
    ensures v.Object?
  {
    Object([
      Field(BACKEND_KEY, String(a.backend)), Field(TSA_KEY, String(a.tsa)), Field(URL_KEY, String(a.url)),
      Field(TOKEN_KEY, String(a.token)), Field(GEN_TIME_KEY, Number(Whole(a.genTime))),
      Field(IMPRINT_KEY, String(a.imprint)), Field(HASH_ALGORITHM_KEY, String(a.hashAlgorithm))])
  }

  function EntryValue(e: LogEntry): (v: Value)
    ensures v.Object?
  {
    Object([
      Field(RECORD_KEY, String(ENTRY)), Field(SEQ_KEY, Number(Whole(e.seqNo))), Field(TS_KEY, Number(Whole(e.ts))),
      Field(TYPE_KEY, String(e.kind)), Field(ACTOR_KEY, String(e.actor)), Field(PAYLOAD_KEY, e.payload),
      Field(PREV_HASH_KEY, String(e.prevHash)), Field(HASH_KEY, String(e.hash)),
      Field(SIGNATURE_KEY, String(e.signature)), Field(SIGNER_KEY, String(e.signerPublicKey))])
  }

  function AnchorValues(anchors: seq<Anchor>): (vs: seq<Value>)
    ensures |vs| == |anchors|
  {
    seq(|anchors|, i requires 0 <= i < |anchors| => AnchorValue(anchors[i]))
  }

  function CheckpointValue(cp: Checkpoint): (v: Value)
    ensures v.Object?
  {
    Object([
      Field(RECORD_KEY, String(CHECKPOINT)), Field(SIZE_KEY, Number(Whole(cp.size))), Field(ROOT_KEY, String(cp.root)),
      Field(HEAD_HASH_KEY, String(cp.headHash)), Field(TS_KEY, Number(Whole(cp.ts))),
      Field(SIGNATURE_KEY, String(cp.signature)), Field(SIGNER_KEY, String(cp.signerPublicKey)),
      Field(ANCHORS_KEY, Array(AnchorValues(cp.anchors)))])
  }

  function SignerProps(signers: seq<Field<Text>>): (ps: seq<Field<Value>>)
    ensures |ps| == |signers|
  {
    seq(|signers|, i requires 0 <= i < |signers| => Field(signers[i].key, String(signers[i].value)))
  }

  function HeaderValue(b: Bundle): (v: Value)
    ensures v.Object?
  {
    Object([
      Field(RECORD_KEY, String(HEADER)), Field(KIND_KEY, String(EVIDENCE_KIND)), Field(VERSION_KEY, Number(Whole(1))),
      Field(EXAM_ID_KEY, String(b.examId)), Field(SIGNERS_KEY, Object(SignerProps(b.signers))),
      Field(ENTRY_COUNT_KEY, Number(Whole(|b.entries|))), Field(CHECKPOINT_COUNT_KEY, Number(Whole(|b.checkpoints|)))])
  }

  function EntryValues(entries: seq<LogEntry>): (vs: seq<Value>)
    ensures |vs| == |entries|
  {
    seq(|entries|, i requires 0 <= i < |entries| => EntryValue(entries[i]))
  }

  function CheckpointValues(cps: seq<Checkpoint>): (vs: seq<Value>)
    ensures |vs| == |cps|
  {
    seq(|cps|, i requires 0 <= i < |cps| => CheckpointValue(cps[i]))
  }

  function ByPosition(entries: seq<LogEntry>): (r: seq<LogEntry>)
    ensures |r| == |entries|
  {
    SortBy(SeqOf, entries)
  }

  /** The records of the file in order. */
  function Records(b: Bundle): (vs: seq<Value>)
    ensures |vs| == 1 + |b.entries| + |b.checkpoints|
  {
    [HeaderValue(b)] + EntryValues(ByPosition(b.entries)) + CheckpointValues(BySize(b.checkpoints))
  }

  predicate AllAccepted(vs: seq<Value>) {
    forall i | 0 <= i < |vs| :: Accepts(vs[i])
  }

  function Printed(vs: seq<Value>): (ls: seq<Text>)
    requires AllAccepted(vs)
    ensures |ls| == |vs|
  {
    seq(|vs|, i requires 0 <= i < |vs| => Print(vs[i]))
  }

  predicate Serializable(b: Bundle) {
    AllAccepted(Records(b))
  }

  /** `lines.join("\n") + "\n"` for at least one line. */
  function JoinLines(lines: seq<Text>): Text {
    if lines == [] then [] else lines[0] + [NEWLINE] + JoinLines(lines[1..])
  }

  function Serialized(b: Bundle): Text
    requires Serializable(b)
  {
    JoinLines(Printed(Records(b)))
  }

  // ---------- the parser ----------

  /** The white space and line terminators that `trim` removes. */
  predicate IsSpace(u: CodeUnit) {
    0x09 <= u <= 0x0d || u == 0x20 || u == 0xa0 || u == 0x1680 || 0x2000 <= u <= 0x200a || u == 0x2028 || u == 0x2029
    || u == 0x202f || u == 0x205f || u == 0x3000 || u == 0xfeff
  }

  predicate IsBlank(t: Text) {
    forall i | 0 <= i < |t| :: IsSpace(t[i])
  }

  function WithoutBlanks(ls: seq<Text>): seq<Text> {
    if ls == [] then [] else (if IsBlank(ls[0]) then [] else [ls[0]]) + WithoutBlanks(ls[1..])
  }

  datatype EvidenceError =
    | EmptyFile | NotJson(line: nat) | NullLine(line: nat) | HeaderNotFirst(line: nat) | UnexpectedKind(line: nat)
    | UnsupportedVersion(line: nat) | UnknownRecord(line: nat) | MissingHeader | EntryCount | CheckpointCount

  datatype Reading = Reading(header: Option<Record>, entries: seq<Record>, checkpoints: seq<Record>)

  datatype Contents = Contents(
    examId: Option<Meaning>, entries: seq<Record>, checkpoints: seq<Record>, signers: Option<Meaning>)

  function Get(m: Record, key: Text): Option<Meaning> {
    if key in m then Some(m[key]) else None
  }

  function ReadHeader(s: Reading, i: nat, h: Record): Result<Reading, EvidenceError> {
    if i != 0 then Err(HeaderNotFirst(i + 1))
    else if Get(h, KIND_KEY) != Some(TextMeaning(EVIDENCE_KIND)) then Err(UnexpectedKind(i + 1))
    else if Get(h, VERSION_KEY) != Some(IntMeaning(1)) then Err(UnsupportedVersion(i + 1))
    else Ok(s.(header := Some(h)))
  }

  function ReadRecord(s: Reading, i: nat, m: Meaning): Result<Reading, EvidenceError> {
    if m == NullMeaning then Err(NullLine(i + 1))
    else if !m.MapMeaning? then Err(UnknownRecord(i + 1))
    else
      var kind := Get(m.fields, RECORD_KEY);
      if kind == Some(TextMeaning(HEADER)) then ReadHeader(s, i, m.fields)
      else if kind == Some(TextMeaning(ENTRY)) then Ok(s.(entries := s.entries + [m.fields - {RECORD_KEY}]))
      else if kind == Some(TextMeaning(CHECKPOINT)) then
        Ok(s.(checkpoints := s.checkpoints + [m.fields - {RECORD_KEY}]))
      else Err(UnknownRecord(i + 1))
  }

  function ReadLine(parse: Parser, s: Reading, i: nat, line: Text): Result<Reading, EvidenceError> {
    match parse(line)
    case None => Err(NotJson(i + 1))
    case Some(m) => ReadRecord(s, i, m)
  }

  const NOTHING_READ := Reading(None, [], [])

  /** What the first n lines add up to, or the first complaint. */
  function ReadLines(parse: Parser, lines: seq<Text>, n: nat): Result<Reading, EvidenceError>
    requires n <= |lines|
  {
    if n == 0 then Ok(NOTHING_READ) else
    var s := ReadLines(parse, lines, n - 1);
    if s.Err? then s else ReadLine(parse, s.value, n - 1, lines[n - 1])
  }

  function Finish(s: Reading): Result<Contents, EvidenceError> {
    if s.header.None? then Err(MissingHeader)
    else
      var h := s.header.value;
      if Get(h, ENTRY_COUNT_KEY) != Some(IntMeaning(|s.entries|)) then Err(EntryCount)
      else if Get(h, CHECKPOINT_COUNT_KEY) != Some(IntMeaning(|s.checkpoints|)) then Err(CheckpointCount)
      else Ok(Contents(Get(h, EXAM_ID_KEY), s.entries, s.checkpoints, Get(h, SIGNERS_KEY)))
  }

  function ParseLines(parse: Parser, lines: seq<Text>): Result<Contents, EvidenceError> {
    if lines == [] then Err(EmptyFile)
    else
      var s := ReadLines(parse, lines, |lines|);
      if s.Err? then Err(s.error) else Finish(s.value)
  }

  function Parse(parse: Parser, text: Text): Result<Contents, EvidenceError> {
    ParseLines(parse, WithoutBlanks(Split(text, NEWLINE)))
  }

  // ---------- which files are accepted ----------

  /** The line is a record of that kind. */
  predicate IsOf(parse: Parser, line: Text, kind: Text) {
    parse(line).Some? && parse(line).value.MapMeaning?
      && Get(parse(line).value.fields, RECORD_KEY) == Some(TextMeaning(kind))
  }

  predicate IsHeaderLine(parse: Parser, line: Text) {
    && IsOf(parse, line, HEADER) && Get(parse(line).value.fields, KIND_KEY) == Some(TextMeaning(EVIDENCE_KIND))
    && Get(parse(line).value.fields, VERSION_KEY) == Some(IntMeaning(1))
  }

  /** The records of a kind among the first n lines. */
  function Among(parse: Parser, lines: seq<Text>, kind: Text, n: nat): seq<Record>
    requires n <= |lines|
  {
    if n == 0 then []
    else if IsOf(parse, lines[n - 1], kind) then
      Among(parse, lines, kind, n - 1) + [parse(lines[n - 1]).value.fields - {RECORD_KEY}]
    else Among(parse, lines, kind, n - 1)
  }

  predicate LineMayStand(parse: Parser, lines: seq<Text>, i: nat)
    requires i < |lines|
  {
    (i == 0 && IsHeaderLine(parse, lines[i])) || IsOf(parse, lines[i], ENTRY) || IsOf(parse, lines[i], CHECKPOINT)
  }

  lemma KindsDiffer()
    ensures HEADER != ENTRY && HEADER != CHECKPOINT && ENTRY != CHECKPOINT
  {
    assert |HEADER| == 6 && |ENTRY| == 5 && |CHECKPOINT| == 10;
  }

  lemma LineMeaning(parse: Parser, lines: seq<Text>, i: nat, s: Reading)
    requires i < |lines|
    ensures var r := ReadLine(parse, s, i, lines[i]);
      && (r.Ok? <==> LineMayStand(parse, lines, i))
      && (r.Ok? && IsOf(parse, lines[i], HEADER) ==>
        i == 0 && r.value == s.(header := Some(parse(lines[i]).value.fields)))
      && (IsOf(parse, lines[i], ENTRY) ==>
            r.Ok? && r.value == s.(entries := s.entries + [parse(lines[i]).value.fields - {RECORD_KEY}]))
      && (IsOf(parse, lines[i], CHECKPOINT) ==>
            r.Ok? && r.value == s.(checkpoints := s.checkpoints + [parse(lines[i]).value.fields - {RECORD_KEY}]))
  {
    KindsDiffer();
  }

  lemma {:induction false} LinesMeaning(parse: Parser, lines: seq<Text>, n: nat)
    requires n <= |lines|
    ensures ReadLines(parse, lines, n).Ok? <==> forall i: nat | i < n :: LineMayStand(parse, lines, i)
    ensures ReadLines(parse, lines, n).Ok? ==>
      ReadLines(parse, lines, n).value == Reading(
        if n > 0 && IsHeaderLine(parse, lines[0]) then Some(parse(lines[0]).value.fields) else None,
        Among(parse, lines, ENTRY, n), Among(parse, lines, CHECKPOINT, n))
  {
    hide ReadLine, LineMayStand, IsOf;
    KindsDiffer();
    if n > 0 {
      LinesMeaning(parse, lines, n - 1);
      var before := ReadLines(parse, lines, n - 1);
      if before.Ok? {
        LineMeaning(parse, lines, n - 1, before.value);
        OneKind(parse, lines[n - 1]);
        if LineMayStand(parse, lines, n - 1) {
          StandsAs(parse, lines, n - 1);
        }
      }
    }
  }

  lemma OneKind(parse: Parser, line: Text)
    ensures !(IsOf(parse, line, ENTRY) && IsOf(parse, line, CHECKPOINT))
    ensures !(IsOf(parse, line, HEADER) && (IsOf(parse, line, ENTRY) || IsOf(parse, line, CHECKPOINT)))
  {
    KindsDiffer();
  }

  lemma StandsAs(parse: Parser, lines: seq<Text>, i: nat)
    requires i < |lines| && LineMayStand(parse, lines, i)
    ensures IsOf(parse, lines[i], HEADER) || IsOf(parse, lines[i], ENTRY) || IsOf(parse, lines[i], CHECKPOINT)
    ensures IsOf(parse, lines[i], HEADER) ==> i == 0 && IsHeaderLine(parse, lines[i])
  {
    OneKind(parse, lines[i]);
  }

  lemma LaterLines(parse: Parser, lines: seq<Text>)
    requires lines != [] && IsHeaderLine(parse, lines[0])
    ensures (forall i: nat | i < |lines| :: LineMayStand(parse, lines, i)) <==>
      forall i: nat | 0 < i < |lines| :: IsOf(parse, lines[i], ENTRY) || IsOf(parse, lines[i], CHECKPOINT)
  {
    hide IsOf;
    forall i: nat | 0 < i < |lines|
      ensures LineMayStand(parse, lines, i) <==> IsOf(parse, lines[i], ENTRY) || IsOf(parse, lines[i], CHECKPOINT)
    {}
  }

  /** A file is accepted exactly when its first line is a header of this kind and version, every other line is
      an entry or a checkpoint, and the header's counts are right; its contents are those records in order. */
  lemma ParseMeaning(parse: Parser, text: Text)
    ensures var lines := WithoutBlanks(Split(text, NEWLINE)); var n := |lines|;
      && (Parse(parse, text).Ok? <==>
            && n > 0 && IsHeaderLine(parse, lines[0])
            && (forall i: nat | 0 < i < n :: IsOf(parse, lines[i], ENTRY) || IsOf(parse, lines[i], CHECKPOINT))
            && var h := parse(lines[0]).value.fields;
            && Get(h, ENTRY_COUNT_KEY) == Some(IntMeaning(|Among(parse, lines, ENTRY, n)|))
            && Get(h, CHECKPOINT_COUNT_KEY) == Some(IntMeaning(|Among(parse, lines, CHECKPOINT, n)|)))
      && (Parse(parse, text).Ok? ==>
            n > 0 && IsHeaderLine(parse, lines[0]) && Parse(parse, text).value == Contents(
              Get(parse(lines[0]).value.fields, EXAM_ID_KEY), Among(parse, lines, ENTRY, n),
              Among(parse, lines, CHECKPOINT, n), Get(parse(lines[0]).value.fields, SIGNERS_KEY)))
  {
    hide ReadLines, Split, WithoutBlanks, Among, IsOf;
    var lines := WithoutBlanks(Split(text, NEWLINE));
    LinesMeaning(parse, lines, |lines|);
    if lines != [] {
      OneKind(parse, lines[0]);
      if IsHeaderLine(parse, lines[0]) {
        LaterLines(parse, lines);
      }
    }
  }

  /** Line n is the first that may not stand where it is. */
  predicate FirstBad(parse: Parser, lines: seq<Text>, n: nat) {
    1 <= n <= |lines| && !LineMayStand(parse, lines, n - 1)
      && forall i: nat | i < n - 1 :: LineMayStand(parse, lines, i)
  }

  predicate AllStand(parse: Parser, lines: seq<Text>) {
    lines != [] && forall i: nat | i < |lines| :: LineMayStand(parse, lines, i)
  }

  predicate RightCount(parse: Parser, lines: seq<Text>, key: Text, kind: Text) {
    lines != [] && IsHeaderLine(parse, lines[0])
    && Get(parse(lines[0]).value.fields, key) == Some(IntMeaning(|Among(parse, lines, kind, |lines|)|))
  }

  /** The complaint is true of the file. */
  predicate Complains(parse: Parser, lines: seq<Text>, e: EvidenceError) {
    match e
    case EmptyFile => lines == []
    case NotJson(n) => FirstBad(parse, lines, n) && parse(lines[n - 1]).None?
    case NullLine(n) => FirstBad(parse, lines, n) && parse(lines[n - 1]) == Some(NullMeaning)
    case HeaderNotFirst(n) => FirstBad(parse, lines, n) && n > 1 && IsOf(parse, lines[n - 1], HEADER)
    case UnexpectedKind(n) =>
      && FirstBad(parse, lines, n) && n == 1 && IsOf(parse, lines[0], HEADER)
      && Get(parse(lines[0]).value.fields, KIND_KEY) != Some(TextMeaning(EVIDENCE_KIND))
    case UnsupportedVersion(n) =>
      && FirstBad(parse, lines, n) && n == 1 && IsOf(parse, lines[0], HEADER)
      && Get(parse(lines[0]).value.fields, KIND_KEY) == Some(TextMeaning(EVIDENCE_KIND))
      && Get(parse(lines[0]).value.fields, VERSION_KEY) != Some(IntMeaning(1))
    case UnknownRecord(n) =>
      && FirstBad(parse, lines, n) && parse(lines[n - 1]).Some? && parse(lines[n - 1]).value != NullMeaning
      && !IsOf(parse, lines[n - 1], HEADER)
    case MissingHeader => AllStand(parse, lines) && !IsHeaderLine(parse, lines[0])
    case EntryCount =>
      AllStand(parse, lines) && IsHeaderLine(parse, lines[0]) && !RightCount(parse, lines, ENTRY_COUNT_KEY, ENTRY)
    case CheckpointCount =>
      AllStand(parse, lines) && RightCount(parse, lines, ENTRY_COUNT_KEY, ENTRY)
      && !RightCount(parse, lines, CHECKPOINT_COUNT_KEY, CHECKPOINT)
  }

  lemma {:induction false} LineComplaint(parse: Parser, lines: seq<Text>, n: nat)
    requires n <= |lines| && ReadLines(parse, lines, n).Err?
    ensures Complains(parse, lines, ReadLines(parse, lines, n).error)
  {
    hide LineMayStand, IsOf, ReadLine;
    if n > 0 {
      var before := ReadLines(parse, lines, n - 1);
      LinesMeaning(parse, lines, n - 1);
      if before.Err? {
        LineComplaint(parse, lines, n - 1);
      } else {
        LineMeaning(parse, lines, n - 1, before.value);
        BadLine(parse, lines, n - 1, before.value);
      }
    }
  }

  lemma BadLine(parse: Parser, lines: seq<Text>, i: nat, s: Reading)
    requires i < |lines| && ReadLine(parse, s, i, lines[i]).Err? && FirstBad(parse, lines, i + 1)
    ensures Complains(parse, lines, ReadLine(parse, s, i, lines[i]).error)
  {
    hide LineMayStand;
    KindsDiffer();
  }

  /** Every complaint about a file is true: it names the first line that may not stand there and why, or else a
      missing header or a wrong count. */
  lemma ParseComplains(parse: Parser, text: Text)
    requires Parse(parse, text).Err?
    ensures Complains(parse, WithoutBlanks(Split(text, NEWLINE)), Parse(parse, text).error)
  {
    hide ReadLines, Split, WithoutBlanks, Among, IsOf, LineMayStand;
    var lines := WithoutBlanks(Split(text, NEWLINE));
    if lines != [] {
      LinesMeaning(parse, lines, |lines|);
      if ReadLines(parse, lines, |lines|).Err? {
        LineComplaint(parse, lines, |lines|);
      }
    }
  }

  lemma {:induction false} ErrorsStay(parse: Parser, lines: seq<Text>, i: nat, n: nat)
    requires i <= n <= |lines| && ReadLines(parse, lines, i).Err?
    ensures ReadLines(parse, lines, n) == ReadLines(parse, lines, i)
  {
    if i < n {
      ErrorsStay(parse, lines, i, n - 1);
    }
  }

  method ParseEvidence(parse: Parser, text: Text) returns (r: Result<Contents, EvidenceError>)
    ensures r == Parse(parse, text)
  {
    hide Split, IsBlank, ReadRecord;
    var lines := WithoutBlanks(Split(text, NEWLINE));
    if |lines| == 0 {
      return Err(EmptyFile);
    }
    var s := NOTHING_READ;
    for i := 0 to |lines|
      invariant ReadLines(parse, lines, i) == Ok(s)
    {
      var parsed := parse(lines[i]);
      if parsed.None? {
        ErrorsStay(parse, lines, i + 1, |lines|);
        return Err(NotJson(i + 1));
      }
      var step := ReadRecord(s, i, parsed.value);
      if step.Err? {
        ErrorsStay(parse, lines, i + 1, |lines|);
        return Err(step.error);
      }
      s := step.value;
    }
    r := Finish(s);
  }

  // ---------- lines survive the text ----------

  predicate Printable(t: Text) {
    forall i | 0 <= i < |t| :: t[i] >= 0x20
  }

  lemma {:induction false} EscapedIsPrintable(s: Text)
    ensures Printable(EscapeAll(s))
  {
    if s != [] {
      EscapedIsPrintable(s[1..]);
      assert Printable(Escape(s[0]));
    }
  }

  lemma DigitsArePrintable(n: int)
    ensures Printable(PrintInt(n))
  {}

  lemma {:induction false} PrintIsPrintable(v: Value)
    requires Accepts(v)
    ensures Printable(Print(v))
    decreases v, 0
  {
    match v
    case Number(Whole(n)) => DigitsArePrintable(n);
    case String(s) => EscapedIsPrintable(s);
    case Array(items) => ItemsArePrintable(items);
    case Object(props) => FieldsArePrintable(Sort(props), v);
    case _ =>
  }

  lemma {:induction false} ItemsArePrintable(items: seq<Value>)
    requires forall i | 0 <= i < |items| :: Accepts(items[i])
    ensures Printable(PrintItems(items))
    decreases items, 0
  {
    if items != [] {
      PrintIsPrintable(items[0]);
      ItemsArePrintable(items[1..]);
    }
  }

  lemma {:induction false} FieldsArePrintable(ps: seq<Field<Value>>, owner: Value)
    requires owner.Object? && forall i | 0 <= i < |ps| :: ps[i] in owner.props && Accepts(ps[i].value)
    ensures Printable(PrintFields(ps, owner))
    decreases owner, 0, |ps|
  {
    hide Print, EscapeAll, Accepts;
    if ps != [] {
      EscapedIsPrintable(ps[0].key);
      PrintIsPrintable(ps[0].value);
      FieldsArePrintable(ps[1..], owner);
    }
  }

  predicate IsLine(l: Text) {
    Printable(l) && !IsBlank(l)
  }

  lemma {:induction false} SplitJoined(ls: seq<Text>)
    requires forall i | 0 <= i < |ls| :: IsLine(ls[i])
    ensures WithoutBlanks(Split(JoinLines(ls), NEWLINE)) == ls
  {
    hide Split, IsBlank, Printable;
    if ls == [] {
      NothingToSplit();
    } else {
      var rest := JoinLines(ls[1..]);
      assert IsLine(ls[0]);
      NoLineBreak(ls[0]);
      SplitFirst(ls[0], rest, NEWLINE);
      SplitJoined(ls[1..]);
      assert ([ls[0]] + Split(rest, NEWLINE))[1..] == Split(rest, NEWLINE);
    }
  }

  lemma NoLineBreak(l: Text)
    requires Printable(l)
    ensures Without(l, NEWLINE)
  {}

  lemma NothingToSplit()
    ensures WithoutBlanks(Split([], NEWLINE)) == []
  {}

  lemma RecordIsLine(v: Value)
    requires v.Object? && Accepts(v)
    ensures IsLine(Print(v))
  {
    hide Accepts;
    PrintIsPrintable(v);
    assert Print(v)[0] == LEFT_BRACE;
    assert !IsSpace(LEFT_BRACE);
  }

  // ---------- what records say ----------

  lemma Property(v: Value, i: nat)
    requires v.Object? && Accepts(v) && DistinctKeys(v.props) && i < |v.props|
    ensures MeaningOf(v).MapMeaning?
    ensures Get(MeaningOf(v).fields, v.props[i].key) == Some(MeaningOf(v.props[i].value))
  {
    MapOfMeaning(v.props, v);
    assert v.props[i] in v.props;
  }

  predicate IsRecord(v: Value, kind: Text) {
    && v.Object? && Accepts(v) && MeaningOf(v).MapMeaning?
    && Get(MeaningOf(v).fields, RECORD_KEY) == Some(TextMeaning(kind))
  }

  ghost predicate AllRecords(vs: seq<Value>, kind: Text) {
    forall i | 0 <= i < |vs| :: IsRecord(vs[i], kind) && Proper(vs[i])
  }

  function Fields(v: Value): Record
    requires v.Object? && Accepts(v)
  {
    MeaningOf(v).fields
  }

  /** The object without its `record` property. */
  function RecordsOf(vs: seq<Value>): (rs: seq<Record>)
    requires AllAccepted(vs) && forall i | 0 <= i < |vs| :: vs[i].Object?
    ensures |rs| == |vs|
  {
    seq(|vs|, i requires 0 <= i < |vs| => Fields(vs[i]) - {RECORD_KEY})
  }

  // ---------- reading the lines of a file ----------

  lemma {:induction false} ReadEntries(parse: Parser, lines: seq<Text>, es: seq<Value>, at: nat, n: nat, s: Reading)
    requires Inverts(parse) && AllRecords(es, ENTRY) && AllAccepted(es) && n <= |es| && at + |es| <= |lines|
    requires lines[at..at + |es|] == Printed(es)
    requires ReadLines(parse, lines, at) == Ok(s)
    ensures ReadLines(parse, lines, at + n) == Ok(s.(entries := s.entries + RecordsOf(es)[..n]))
    decreases n
  {
    hide Accepts, Print, MeaningOf, Proper;
    if n == 0 {
      assert s.entries + RecordsOf(es)[..0] == s.entries;
    } else {
      ReadEntries(parse, lines, es, at, n - 1, s);
      assert s.entries + RecordsOf(es)[..n - 1] + [RecordsOf(es)[n - 1]] == s.entries + RecordsOf(es)[..n];
      assert IsRecord(es[n - 1], ENTRY) && Proper(es[n - 1]);
      assert lines[at + n - 1] == lines[at..at + |es|][n - 1] == Print(es[n - 1]);
    }
  }

  lemma {:induction false} ReadCheckpoints(parse: Parser, lines: seq<Text>, cs: seq<Value>, at: nat, n: nat, s: Reading)
    requires Inverts(parse) && AllRecords(cs, CHECKPOINT) && AllAccepted(cs) && n <= |cs| && at + |cs| <= |lines|
    requires lines[at..at + |cs|] == Printed(cs)
    requires ReadLines(parse, lines, at) == Ok(s)
    ensures ReadLines(parse, lines, at + n) == Ok(s.(checkpoints := s.checkpoints + RecordsOf(cs)[..n]))
    decreases n
  {
    hide Accepts, Print, MeaningOf, Proper;
    if n == 0 {
      assert s.checkpoints + RecordsOf(cs)[..0] == s.checkpoints;
    } else {
      ReadCheckpoints(parse, lines, cs, at, n - 1, s);
      assert s.checkpoints + RecordsOf(cs)[..n - 1] + [RecordsOf(cs)[n - 1]] == s.checkpoints + RecordsOf(cs)[..n];
      assert IsRecord(cs[n - 1], CHECKPOINT) && Proper(cs[n - 1]);
      assert lines[at + n - 1] == lines[at..at + |cs|][n - 1] == Print(cs[n - 1]);
    }
  }

  // ---------- the three kinds of record ----------

  lemma EntryKeys(e: LogEntry)
    ensures DistinctKeys(EntryValue(e).props)
  {
    var ps := EntryValue(e).props;
    assert |ps[0].key| == 6 && |ps[1].key| == 3 && |ps[2].key| == 2 && |ps[3].key| == 4 && |ps[4].key| == 5;
    assert |ps[5].key| == 7 && |ps[6].key| == 8 && |ps[7].key| == 4 && |ps[8].key| == 9 && |ps[9].key| == 15;
    assert ps[3].key[0] != ps[7].key[0];
  }

  lemma EntryIsRecord(e: LogEntry)
    requires Accepts(EntryValue(e)) && Proper(e.payload)
    ensures IsRecord(EntryValue(e), ENTRY) && Proper(EntryValue(e))
  {
    hide Accepts, MeaningOf;
    EntryKeys(e);
    Property(EntryValue(e), 0);
    assert MeaningOf(String(ENTRY)) == TextMeaning(ENTRY) by { TextMeans(ENTRY); }
    var ps := EntryValue(e).props;
    forall p | p in ps ensures Proper(p.value) {}
  }

  lemma TextMeans(t: Text)
    ensures Accepts(String(t)) && MeaningOf(String(t)) == TextMeaning(t)
  {}

  lemma CheckpointIsRecord(cp: Checkpoint)
    requires Accepts(CheckpointValue(cp))
    ensures IsRecord(CheckpointValue(cp), CHECKPOINT) && Proper(CheckpointValue(cp))
  {
    hide Accepts, MeaningOf;
    var ps := CheckpointValue(cp).props;
    assert DistinctKeys(ps) by { CheckpointKeys(cp); }
    Property(CheckpointValue(cp), 0);
    assert MeaningOf(String(CHECKPOINT)) == TextMeaning(CHECKPOINT) by { TextMeans(CHECKPOINT); }
    AnchorsAreProper(cp.anchors);
    forall p | p in ps ensures Proper(p.value) {}
  }

  lemma CheckpointKeys(cp: Checkpoint)
    ensures DistinctKeys(CheckpointValue(cp).props)
  {
    var ps := CheckpointValue(cp).props;
    assert |ps[0].key| == 6 && |ps[1].key| == 4 && |ps[2].key| == 4 && |ps[3].key| == 8 && |ps[4].key| == 2;
    assert |ps[5].key| == 9 && |ps[6].key| == 15 && |ps[7].key| == 7;
    assert ps[1].key[0] != ps[2].key[0];
  }

  lemma AnchorsAreProper(anchors: seq<Anchor>)
    ensures Proper(Array(AnchorValues(anchors)))
  {
    forall i | 0 <= i < |anchors| ensures Proper(AnchorValues(anchors)[i]) {
      AnchorKeys(anchors[i]);
      var ps := AnchorValue(anchors[i]).props;
      forall p | p in ps ensures Proper(p.value) {}
    }
  }

  lemma AnchorKeys(a: Anchor)
    ensures DistinctKeys(AnchorValue(a).props)
  {
    var ps := AnchorValue(a).props;
    assert |ps[0].key| == 7 && |ps[1].key| == 3 && |ps[2].key| == 3 && |ps[3].key| == 5 && |ps[4].key| == 7;
    assert |ps[5].key| == 7 && |ps[6].key| == 13;
    assert ps[0].key[0] != ps[4].key[0] && ps[0].key[0] != ps[5].key[0] && ps[4].key[0] != ps[5].key[0];
    assert ps[1].key[0] != ps[2].key[0];
  }

  lemma HeaderKeys(b: Bundle)
    ensures DistinctKeys(HeaderValue(b).props)
  {
    var ps := HeaderValue(b).props;
    assert |ps[0].key| == 6 && |ps[1].key| == 4 && |ps[2].key| == 7 && |ps[3].key| == 7 && |ps[4].key| == 7;
    assert |ps[5].key| == 11 && |ps[6].key| == 16;
    assert ps[2].key[0] != ps[3].key[0] && ps[2].key[0] != ps[4].key[0] && ps[3].key[0] != ps[4].key[0];
  }

  ghost predicate ProperBundle(b: Bundle) {
    DistinctKeys(b.signers) && ProperPayloads(b.entries)
  }

  lemma SignersAreProper(signers: seq<Field<Text>>)
    requires DistinctKeys(signers)
    ensures Proper(Object(SignerProps(signers)))
  {
    var ps := SignerProps(signers);
    forall p | p in ps ensures Proper(p.value) {}
  }

  lemma SignersMeaning(b: Bundle)
    requires Accepts(HeaderValue(b))
    ensures Accepts(Object(SignerProps(b.signers)))
  {
    assert HeaderValue(b).props[4] in HeaderValue(b).props;
  }

  function SignersMeaningOf(b: Bundle): Meaning
    requires Accepts(HeaderValue(b))
  {
    SignersMeaning(b);
    MeaningOf(Object(SignerProps(b.signers)))
  }

  lemma HeaderIsRecord(b: Bundle)
    requires Accepts(HeaderValue(b)) && DistinctKeys(b.signers)
    ensures IsRecord(HeaderValue(b), HEADER) && Proper(HeaderValue(b))
    ensures var h := Fields(HeaderValue(b));
      && Get(h, KIND_KEY) == Some(TextMeaning(EVIDENCE_KIND)) && Get(h, VERSION_KEY) == Some(IntMeaning(1))
      && Get(h, EXAM_ID_KEY) == Some(TextMeaning(b.examId)) && Get(h, SIGNERS_KEY) == Some(SignersMeaningOf(b))
      && Get(h, ENTRY_COUNT_KEY) == Some(IntMeaning(|b.entries|))
      && Get(h, CHECKPOINT_COUNT_KEY) == Some(IntMeaning(|b.checkpoints|))
  {
    hide Accepts, MeaningOf, Proper, DistinctKeys, SignerProps;
    var v := HeaderValue(b);
    HeaderKeys(b);
    Property(v, 0);
    Property(v, 1);
    Property(v, 2);
    Property(v, 3);
    Property(v, 4);
    Property(v, 5);
    Property(v, 6);
    HeaderValues(b);
    HeaderIsProper(b);
  }

  lemma HeaderValues(b: Bundle)
    requires Accepts(HeaderValue(b))
    ensures forall i | 0 <= i < 7 :: Accepts(HeaderValue(b).props[i].value)
    ensures MeaningOf(HeaderValue(b).props[0].value) == TextMeaning(HEADER)
    ensures MeaningOf(HeaderValue(b).props[1].value) == TextMeaning(EVIDENCE_KIND)
    ensures MeaningOf(HeaderValue(b).props[2].value) == IntMeaning(1)
    ensures MeaningOf(HeaderValue(b).props[3].value) == TextMeaning(b.examId)
    ensures MeaningOf(HeaderValue(b).props[5].value) == IntMeaning(|b.entries|)
    ensures MeaningOf(HeaderValue(b).props[6].value) == IntMeaning(|b.checkpoints|)
  {
    hide SignerProps;
    forall i | 0 <= i < 7 ensures Accepts(HeaderValue(b).props[i].value) {
      assert HeaderValue(b).props[i] in HeaderValue(b).props;
    }
  }

  lemma HeaderIsProper(b: Bundle)
    requires DistinctKeys(b.signers)
    ensures Proper(HeaderValue(b))
  {
    hide SignerProps;
    HeaderKeys(b);
    SignersAreProper(b.signers);
    forall p | p in HeaderValue(b).props ensures Proper(p.value) {}
  }

  // ---------- reading a file of records ----------

  /** A list of values in file order: perhaps the header, then entries, then checkpoints. */
  ghost predicate FileOrder(b: Bundle, hs: seq<Value>, es: seq<Value>, cs: seq<Value>) {
    && (hs == [] || hs == [HeaderValue(b)]) && AllAccepted(hs + es + cs)
    && AllRecords(hs, HEADER) && AllRecords(es, ENTRY) && AllRecords(cs, CHECKPOINT)
  }

  lemma FileParts(b: Bundle, hs: seq<Value>, es: seq<Value>, cs: seq<Value>)
    requires FileOrder(b, hs, es, cs)
    ensures AllAccepted(hs) && AllAccepted(es) && AllAccepted(cs)
    ensures Printed(hs + es + cs) == Printed(hs) + Printed(es) + Printed(cs)
  {
    hide Accepts, Print;
    var vs := hs + es + cs;
    forall i | 0 <= i < |es| ensures Accepts(es[i]) {
      assert vs[|hs| + i] == es[i];
    }
    forall i | 0 <= i < |cs| ensures Accepts(cs[i]) {
      assert vs[|hs| + |es| + i] == cs[i];
    }
    forall i | 0 <= i < |hs| ensures Accepts(hs[i]) {
      assert vs[i] == hs[i];
    }
  }

  function HeaderOf(b: Bundle, hs: seq<Value>): Option<Record>
    requires Accepts(HeaderValue(b))
  {
    if hs == [] then None else Some(Fields(HeaderValue(b)))
  }

  lemma ReadStart(parse: Parser, b: Bundle, hs: seq<Value>, lines: seq<Text>)
    requires Inverts(parse) && Accepts(HeaderValue(b)) && DistinctKeys(b.signers)
    requires hs == [] || (hs == [HeaderValue(b)] && lines != [] && lines[0] == Print(HeaderValue(b)))
    ensures |hs| <= |lines| && ReadLines(parse, lines, |hs|) == Ok(Reading(HeaderOf(b, hs), [], []))
  {
    hide Accepts, Print, MeaningOf, Proper, DistinctKeys, HeaderValue, ReadRecord, ReadLine, Inverts;
    if hs != [] {
      ReadFirst(parse, b);
      assert ReadLines(parse, lines, 0) == Ok(NOTHING_READ);
    }
  }

  /** Where the parts of a file are among its lines. */
  lemma FileSlices(b: Bundle, hs: seq<Value>, es: seq<Value>, cs: seq<Value>)
    requires FileOrder(b, hs, es, cs)
    ensures AllAccepted(hs) && AllAccepted(es) && AllAccepted(cs)
    ensures |Printed(hs + es + cs)| == |hs| + |es| + |cs|
    ensures Printed(hs + es + cs)[|hs|..|hs| + |es|] == Printed(es)
    ensures Printed(hs + es + cs)[|hs| + |es|..] == Printed(cs)
    ensures hs != [] ==>
      hs == [HeaderValue(b)] && Accepts(HeaderValue(b)) && Printed(hs + es + cs)[0] == Print(HeaderValue(b))
  {
    hide Accepts, Print, HeaderValue;
    FileParts(b, hs, es, cs);
    if hs != [] {
      assert Printed(hs)[0] == Print(hs[0]);
    }
  }

  lemma ReadParts(parse: Parser, lines: seq<Text>, es: seq<Value>, cs: seq<Value>, k: nat, n: nat, h: Option<Record>)
    requires Inverts(parse) && AllRecords(es, ENTRY) && AllRecords(cs, CHECKPOINT) && AllAccepted(es) && AllAccepted(cs)
    requires n == k + |es| && |lines| == n + |cs| && ReadLines(parse, lines, k) == Ok(Reading(h, [], []))
    requires lines[k..n] == Printed(es) && lines[n..] == Printed(cs)
    ensures ReadLines(parse, lines, |lines|) == Ok(Reading(h, RecordsOf(es), RecordsOf(cs)))
  {
    hide Accepts, Print, MeaningOf, Proper, ReadLines, Inverts, Printed, RecordsOf;
    var s := Reading(h, [], []);
    ReadEntries(parse, lines, es, k, |es|, s);
    assert s.entries + RecordsOf(es)[..|es|] == RecordsOf(es);
    var t := Reading(h, RecordsOf(es), []);
    assert lines[n..n + |cs|] == lines[n..];
    ReadCheckpoints(parse, lines, cs, n, |cs|, t);
    assert t.checkpoints + RecordsOf(cs)[..|cs|] == RecordsOf(cs);
  }

  lemma ReadFile(parse: Parser, b: Bundle, hs: seq<Value>, es: seq<Value>, cs: seq<Value>)
    requires Inverts(parse) && FileOrder(b, hs, es, cs) && Accepts(HeaderValue(b)) && DistinctKeys(b.signers)
    ensures AllAccepted(es) && AllAccepted(cs)
    ensures ReadLines(parse, Printed(hs + es + cs), |hs| + |es| + |cs|) ==
            Ok(Reading(HeaderOf(b, hs), RecordsOf(es), RecordsOf(cs)))
  {
    hide *;
    OpenFile(b, hs, es, cs);
    FileSlices(b, hs, es, cs);
    var lines := Printed(hs + es + cs);
    ReadStart(parse, b, hs, lines);
    ReadParts(parse, lines, es, cs, |hs|, |hs| + |es|, HeaderOf(b, hs));
  }

  lemma OpenFile(b: Bundle, hs: seq<Value>, es: seq<Value>, cs: seq<Value>)
    requires FileOrder(b, hs, es, cs)
    ensures AllRecords(es, ENTRY) && AllRecords(cs, CHECKPOINT) && AllAccepted(hs + es + cs)
  {
    hide AllRecords, AllAccepted, HeaderValue;
  }

  lemma ReadFirst(parse: Parser, b: Bundle)
    requires Inverts(parse) && Accepts(HeaderValue(b)) && DistinctKeys(b.signers)
    ensures ReadLine(parse, NOTHING_READ, 0, Print(HeaderValue(b))) == Ok(Reading(Some(Fields(HeaderValue(b))), [], []))
  {
    hide Accepts, Print, MeaningOf, Proper, DistinctKeys, HeaderValue;
    HeaderIsRecord(b);
  }

  lemma ReadText(parse: Parser, b: Bundle, hs: seq<Value>, es: seq<Value>, cs: seq<Value>)
    requires Inverts(parse) && FileOrder(b, hs, es, cs) && Accepts(HeaderValue(b)) && DistinctKeys(b.signers)
    ensures AllAccepted(es) && AllAccepted(cs)
    ensures Parse(parse, JoinLines(Printed(hs + es + cs))) ==
            if hs + es + cs == [] then Err(EmptyFile)
            else Finish(Reading(HeaderOf(b, hs), RecordsOf(es), RecordsOf(cs)))
  {
    hide Accepts, Print, MeaningOf, Proper, DistinctKeys, HeaderValue, ReadLines, Inverts, Finish, IsBlank, Split,
      HeaderOf;
    FileParts(b, hs, es, cs);
    var vs := hs + es + cs;
    forall i | 0 <= i < |vs| ensures IsLine(Printed(vs)[i]) {
      RecordIsLine(vs[i]);
    }
    SplitJoined(Printed(vs));
    ReadFile(parse, b, hs, es, cs);
  }

  // ---------- theorems ----------

  /** What a bundle says: its records in file order, objects as finite maps. */
  function View(b: Bundle): Contents
    requires Serializable(b)
  {
    SerializableParts(b);
    Contents(Some(TextMeaning(b.examId)), RecordsOf(EntryValues(ByPosition(b.entries))),
             RecordsOf(CheckpointValues(BySize(b.checkpoints))), Some(SignersMeaningOf(b)))
  }

  lemma SerializableParts(b: Bundle)
    requires Serializable(b)
    ensures Accepts(HeaderValue(b))
    ensures AllAccepted(EntryValues(ByPosition(b.entries))) && AllAccepted(CheckpointValues(BySize(b.checkpoints)))
  {
    hide Accepts, HeaderValue, EntryValue, CheckpointValue, ByPosition, BySize;
    var es, cs := EntryValues(ByPosition(b.entries)), CheckpointValues(BySize(b.checkpoints));
    var vs := Records(b);
    assert vs[0] == HeaderValue(b);
    forall i | 0 <= i < |es| ensures Accepts(es[i]) {
      assert vs[1 + i] == es[i];
    }
    forall i | 0 <= i < |cs| ensures Accepts(cs[i]) {
      assert vs[1 + |es| + i] == cs[i];
    }
  }

  lemma SortedPayloads(entries: seq<LogEntry>)
    requires ProperPayloads(entries)
    ensures ProperPayloads(ByPosition(entries))
  {
    hide Proper;
    SortByMeaning(SeqOf, entries);
    var r := ByPosition(entries);
    forall e | e in r ensures Proper(e.payload) {
      assert e in multiset(r);
    }
  }

  lemma EntriesAreRecords(entries: seq<LogEntry>)
    requires ProperPayloads(entries) && AllAccepted(EntryValues(entries))
    ensures AllRecords(EntryValues(entries), ENTRY)
  {
    hide Accepts, Proper, EntryValue, IsRecord;
    var vs := EntryValues(entries);
    forall i | 0 <= i < |vs| ensures IsRecord(vs[i], ENTRY) && Proper(vs[i]) {
      assert vs[i] == EntryValue(entries[i]) && Accepts(vs[i]);
      EntryIsRecord(entries[i]);
    }
  }

  lemma CheckpointsAreRecords(cps: seq<Checkpoint>)
    requires AllAccepted(CheckpointValues(cps))
    ensures AllRecords(CheckpointValues(cps), CHECKPOINT)
  {
    hide Accepts, Proper, CheckpointValue, IsRecord;
    var vs := CheckpointValues(cps);
    forall i | 0 <= i < |vs| ensures IsRecord(vs[i], CHECKPOINT) && Proper(vs[i]) {
      assert vs[i] == CheckpointValue(cps[i]) && Accepts(vs[i]);
      CheckpointIsRecord(cps[i]);
    }
  }

  lemma BundleInFileOrder(b: Bundle)
    requires ProperBundle(b) && Serializable(b)
    ensures FileOrder(b, [HeaderValue(b)], EntryValues(ByPosition(b.entries)), CheckpointValues(BySize(b.checkpoints)))
  {
    hide Accepts, Proper, HeaderValue, EntryValues, CheckpointValues, IsRecord, DistinctKeys;
    SerializableParts(b);
    SortedPayloads(b.entries);
    EntriesAreRecords(ByPosition(b.entries));
    CheckpointsAreRecords(BySize(b.checkpoints));
    HeaderIsRecord(b);
  }

  /** Parsing what was serialised gives the records back, entries by position, checkpoints by size. */
  lemma ParseSerialized(parse: Parser, b: Bundle)
    requires Inverts(parse) && ProperBundle(b) && Serializable(b)
    ensures Parse(parse, Serialized(b)) == Ok(View(b))
  {
    hide Accepts, Proper, HeaderValue, EntryValues, CheckpointValues, DistinctKeys, FileOrder, Parse, JoinLines,
      Inverts, AllAccepted, MeaningOf, Printed;
    SerializableParts(b);
    BundleInFileOrder(b);
    HeaderIsRecord(b);
    ReadText(parse, b, [HeaderValue(b)], EntryValues(ByPosition(b.entries)), CheckpointValues(BySize(b.checkpoints)));
  }

  lemma SameRecordSameText(v: Value, w: Value, kind: Text)
    requires IsRecord(v, kind) && IsRecord(w, kind) && Proper(v) && Proper(w)
    requires Fields(v) - {RECORD_KEY} == Fields(w) - {RECORD_KEY}
    ensures Print(v) == Print(w)
  {
    hide Accepts, Proper, MeaningOf, Print;
    assert Fields(v) == (Fields(v) - {RECORD_KEY})[RECORD_KEY := TextMeaning(kind)];
    assert Fields(w) == (Fields(w) - {RECORD_KEY})[RECORD_KEY := TextMeaning(kind)];
    assert MeaningOf(v) == MeaningOf(w);
    SameMeaningSameText(v, w);
  }

  lemma SameRecordsSameLines(vs: seq<Value>, ws: seq<Value>, kind: Text)
    requires AllRecords(vs, kind) && AllRecords(ws, kind) && AllAccepted(vs) && AllAccepted(ws)
    requires RecordsOf(vs) == RecordsOf(ws)
    ensures Printed(vs) == Printed(ws)
  {
    hide Accepts, Proper, MeaningOf, Print;
    assert |vs| == |RecordsOf(vs)| && |ws| == |RecordsOf(ws)|;
    forall i | 0 <= i < |vs| ensures Print(vs[i]) == Print(ws[i]) {
      assert RecordsOf(vs)[i] == RecordsOf(ws)[i];
      assert IsRecord(vs[i], kind) && IsRecord(ws[i], kind);
      SameRecordSameText(vs[i], ws[i], kind);
    }
  }

  lemma SameHeaderText(a: Bundle, b: Bundle)
    requires ProperBundle(a) && Serializable(a) && ProperBundle(b) && Serializable(b) && View(a) == View(b)
    ensures Accepts(HeaderValue(a)) && Accepts(HeaderValue(b)) && Print(HeaderValue(a)) == Print(HeaderValue(b))
  {
    hide Accepts, Proper, Print, DistinctKeys, SignerProps, AllAccepted;
    SerializableParts(a);
    SerializableParts(b);
    HeaderIsProper(a);
    HeaderIsProper(b);
    assert |View(a).entries| == |a.entries| && |View(b).entries| == |b.entries|;
    assert |View(a).checkpoints| == |a.checkpoints| && |View(b).checkpoints| == |b.checkpoints|;
    SameHeaderMeaning(a, b);
    SameMeaningSameText(HeaderValue(a), HeaderValue(b));
  }

  lemma {:induction false} SameProperties(ps: seq<Field<Value>>, v: Value, qs: seq<Field<Value>>, w: Value)
    requires v.Object? && forall i | 0 <= i < |ps| :: ps[i] in v.props && Accepts(ps[i].value)
    requires w.Object? && forall i | 0 <= i < |qs| :: qs[i] in w.props && Accepts(qs[i].value)
    requires |ps| == |qs|
    requires forall i | 0 <= i < |ps| :: ps[i].key == qs[i].key && MeaningOf(ps[i].value) == MeaningOf(qs[i].value)
    ensures MapOf(ps, v) == MapOf(qs, w)
    decreases |ps|
  {
    hide Accepts, MeaningOf;
    if ps != [] {
      SameProperties(ps[1..], v, qs[1..], w);
    }
  }

  /** The header's properties as its constant part and what the bundle fills in. */
  function HeaderProps(examId: Text, signers: Meaning, entries: int, checkpoints: int): (ps: seq<(Text, Meaning)>)
    ensures |ps| == 7
  {
    [(RECORD_KEY, TextMeaning(HEADER)), (KIND_KEY, TextMeaning(EVIDENCE_KIND)), (VERSION_KEY, IntMeaning(1)),
     (EXAM_ID_KEY, TextMeaning(examId)), (SIGNERS_KEY, signers), (ENTRY_COUNT_KEY, IntMeaning(entries)),
     (CHECKPOINT_COUNT_KEY, IntMeaning(checkpoints))]
  }

  lemma HeaderPropsMeaning(b: Bundle, i: nat)
    requires Accepts(HeaderValue(b)) && i < 7
    ensures var ps := HeaderValue(b).props;
      && |ps| == 7 && Accepts(ps[i].value)
      && (ps[i].key, MeaningOf(ps[i].value)) ==
        HeaderProps(b.examId, SignersMeaningOf(b), |b.entries|, |b.checkpoints|)[i]
  {
    hide SignerProps, MeaningOf, Accepts;
    HeaderValues(b);
  }

  lemma SameHeaderMeaning(a: Bundle, b: Bundle)
    requires Accepts(HeaderValue(a)) && Accepts(HeaderValue(b)) && SignersMeaningOf(a) == SignersMeaningOf(b)
    requires a.examId == b.examId && |a.entries| == |b.entries| && |a.checkpoints| == |b.checkpoints|
    ensures MeaningOf(HeaderValue(a)) == MeaningOf(HeaderValue(b))
  {
    hide HeaderValue, MeaningOf, Accepts, HeaderProps, SignersMeaningOf;
    var v, w := HeaderValue(a), HeaderValue(b);
    HeaderPropsMeaning(a, 0);
    HeaderPropsMeaning(b, 0);
    ObjectMeans(v);
    ObjectMeans(w);
    forall i: nat | i < 7 ensures v.props[i].key == w.props[i].key
      && MeaningOf(v.props[i].value) == MeaningOf(w.props[i].value) {
      HeaderPropsMeaning(a, i);
      HeaderPropsMeaning(b, i);
    }
    SameProperties(v.props, v, w.props, w);
  }

  lemma ObjectMeans(v: Value)
    requires v.Object? && Accepts(v)
    ensures (forall i | 0 <= i < |v.props| :: Accepts(v.props[i].value))
      && MeaningOf(v) == MapMeaning(MapOf(v.props, v))
  {}

  /** Two bundles have the same file exactly when they say the same. */
  lemma SameFileIffSameContents(a: Bundle, b: Bundle)
    requires ProperBundle(a) && Serializable(a) && ProperBundle(b) && Serializable(b)
    ensures Serialized(a) == Serialized(b) <==> View(a) == View(b)
  {
    hide *;
    CanonicalParserInverts();
    ParseSerialized(CanonicalParser, a);
    ParseSerialized(CanonicalParser, b);
    if View(a) == View(b) {
      SameContentsSameFile(a, b);
    }
  }

  /** A bundle serialises to a file exactly when it says what that file parses to: serialising what was
      parsed gives the file back. */
  lemma SerializeParsed(parse: Parser, a: Bundle, b: Bundle)
    requires Inverts(parse) && ProperBundle(a) && Serializable(a) && ProperBundle(b) && Serializable(b)
    ensures Parse(parse, Serialized(a)) == Ok(View(b)) <==> Serialized(b) == Serialized(a)
  {
    hide *;
    ParseSerialized(parse, a);
    SameFileIffSameContents(a, b);
  }

  /** The bundle that parsing returns: version 1 and the records in the order of the file. */
  function AsParsed(b: Bundle): Bundle {
    b.(version := 1, entries := ByPosition(b.entries), checkpoints := BySize(b.checkpoints))
  }

  lemma InFileOrder(b: Bundle)
    ensures ByPosition(AsParsed(b).entries) == AsParsed(b).entries
      && BySize(AsParsed(b).checkpoints) == AsParsed(b).checkpoints
    ensures AsParsed(AsParsed(b)) == AsParsed(b) && Records(AsParsed(b)) == Records(b)
    ensures ProperBundle(b) ==> ProperBundle(AsParsed(b))
    ensures var es := AsParsed(b).entries;
      multiset(es) == multiset(b.entries) && forall i, j | 0 <= i < j < |es| :: es[i].seqNo <= es[j].seqNo
    ensures var cs := AsParsed(b).checkpoints;
      multiset(cs) == multiset(b.checkpoints) && forall i, j | 0 <= i < j < |cs| :: cs[i].size <= cs[j].size
  {
    hide SortBy, SortedBy, EntryValues, CheckpointValues, DistinctKeys, ProperPayloads;
    SortByMeaning(SeqOf, b.entries);
    SortedIsFixed(SeqOf, ByPosition(b.entries));
    SortByMeaning(SizeOf, b.checkpoints);
    SortedIsFixed(SizeOf, BySize(b.checkpoints));
    SortedMeans(b);
    if ProperBundle(b) {
      SortedPayloads(b.entries);
    }
  }

  lemma SortedMeans(b: Bundle)
    ensures var es := AsParsed(b).entries;
      multiset(es) == multiset(b.entries) && forall i, j | 0 <= i < j < |es| :: es[i].seqNo <= es[j].seqNo
    ensures var cs := AsParsed(b).checkpoints;
      multiset(cs) == multiset(b.checkpoints) && forall i, j | 0 <= i < j < |cs| :: cs[i].size <= cs[j].size
  {
    hide SortBy;
    SortByMeaning(SeqOf, b.entries);
    SortByMeaning(SizeOf, b.checkpoints);
    var es, cs := AsParsed(b).entries, AsParsed(b).checkpoints;
    assert forall i | 0 <= i < |es| :: SeqOf(es[i]) == es[i].seqNo;
    assert forall i | 0 <= i < |cs| :: SizeOf(cs[i]) == cs[i].size;
  }

  /** The parsed bundle says what its file says, and serialising it gives the file back. */
  lemma ParsedBundleSaysTheSame(parse: Parser, b: Bundle)
    requires Inverts(parse) && ProperBundle(b) && Serializable(b)
    ensures ProperBundle(AsParsed(b)) && Serializable(AsParsed(b))
    ensures Parse(parse, Serialized(b)) == Ok(View(AsParsed(b))) && Serialized(AsParsed(b)) == Serialized(b)
  {
    hide AllAccepted, Records, ByPosition, BySize, EntryValues, CheckpointValues, RecordsOf, ProperBundle, JoinLines,
      Printed, Inverts, Parse, SignersMeaningOf;
    InFileOrder(b);
    ParseSerialized(parse, b);
    assert View(AsParsed(b)) == View(b) by { SameView(b); }
  }

  lemma SameView(b: Bundle)
    requires Serializable(b) && Serializable(AsParsed(b))
    ensures View(AsParsed(b)) == View(b)
  {
    hide Accepts, AllAccepted, Records, ByPosition, BySize, EntryValues, CheckpointValues, RecordsOf;
    InFileOrder(b);
  }

  lemma SameContentsSameFile(a: Bundle, b: Bundle)
    requires ProperBundle(a) && Serializable(a) && ProperBundle(b) && Serializable(b) && View(a) == View(b)
    ensures Serialized(a) == Serialized(b)
  {
    hide Accepts, Proper, Print, DistinctKeys, AllAccepted, HeaderValue, EntryValues, CheckpointValues, RecordsOf,
      JoinLines, AllRecords, ByPosition, BySize, ProperPayloads, MeaningOf;
    SerializableParts(a);
    SerializableParts(b);
    BundleInFileOrder(a);
    BundleInFileOrder(b);
    SameHeaderText(a, b);
    SameRecordsSameLines(EntryValues(ByPosition(a.entries)), EntryValues(ByPosition(b.entries)), ENTRY);
    SameRecordsSameLines(CheckpointValues(BySize(a.checkpoints)), CheckpointValues(BySize(b.checkpoints)), CHECKPOINT);
    FileParts(a, [HeaderValue(a)], EntryValues(ByPosition(a.entries)), CheckpointValues(BySize(a.checkpoints)));
    FileParts(b, [HeaderValue(b)], EntryValues(ByPosition(b.entries)), CheckpointValues(BySize(b.checkpoints)));
    assert Printed([HeaderValue(a)]) == Printed([HeaderValue(b)]);
  }

  // ---------- every line is needed ----------

  /** The elements that the mask keeps, in order. */
  function Select<T>(keep: seq<bool>, s: seq<T>): (r: seq<T>)
    requires |keep| == |s|
    ensures |r| <= |s|
  {
    if s == [] then [] else (if keep[0] then [s[0]] else []) + Select(keep[1..], s[1..])
  }

  lemma {:induction false} SelectConcat<T>(k: seq<bool>, m: seq<bool>, a: seq<T>, b: seq<T>)
    requires |k| == |a| && |m| == |b|
    ensures Select(k + m, a + b) == Select(k, a) + Select(m, b)
  {
    if a == [] {
      assert a + b == b && k + m == m;
    } else {
      SelectConcat(k[1..], m, a[1..], b);
      assert (a + b)[1..] == a[1..] + b && (k + m)[1..] == k[1..] + m;
      var head := if k[0] then [a[0]] else [];
      assert Select(k, a) == head + Select(k[1..], a[1..]);
      assert Select(k + m, a + b) == head + (Select(k[1..], a[1..]) + Select(m, b));
    }
  }

  lemma {:induction false} SelectMembers<T>(keep: seq<bool>, s: seq<T>)
    requires |keep| == |s|
    ensures forall x | x in Select(keep, s) :: x in s
    ensures |Select(keep, s)| == |s| ==> forall i | 0 <= i < |keep| :: keep[i]
  {
    if s != [] {
      SelectMembers(keep[1..], s[1..]);
    }
  }

  lemma SelectAccepted(keep: seq<bool>, vs: seq<Value>)
    requires |keep| == |vs| && AllAccepted(vs)
    ensures AllAccepted(Select(keep, vs))
  {
    hide Accepts, Select;
    SelectMembers(keep, vs);
    forall i | 0 <= i < |Select(keep, vs)| ensures Accepts(Select(keep, vs)[i]) {
      assert Select(keep, vs)[i] in vs;
    }
  }

  lemma PrintedParts(v: Value, vs: seq<Value>)
    requires Accepts(v) && AllAccepted(vs)
    ensures AllAccepted([v] + vs) && Printed([v] + vs) == [Print(v)] + Printed(vs)
  {
    hide Accepts, Print;
  }

  lemma {:induction false} SelectPrinted(keep: seq<bool>, vs: seq<Value>)
    requires |keep| == |vs| && AllAccepted(vs)
    ensures AllAccepted(Select(keep, vs)) && Select(keep, Printed(vs)) == Printed(Select(keep, vs))
  {
    hide Accepts, Print, Printed;
    SelectAccepted(keep, vs);
    if vs != [] {
      SelectPrinted(keep[1..], vs[1..]);
      PrintedParts(vs[0], vs[1..]);
      assert [vs[0]] + vs[1..] == vs;
      assert Printed(vs)[1..] == Printed(vs[1..]);
      assert Printed(vs)[0] == Print(vs[0]);
      if keep[0] {
        PrintedParts(vs[0], Select(keep[1..], vs[1..]));
        assert Select(keep, vs) == [vs[0]] + Select(keep[1..], vs[1..]);
      } else {
        assert Select(keep, vs) == Select(keep[1..], vs[1..]);
      }
    }
  }

  lemma SelectRecords(keep: seq<bool>, vs: seq<Value>, kind: Text)
    requires |keep| == |vs| && AllRecords(vs, kind)
    ensures AllRecords(Select(keep, vs), kind)
  {
    hide Select, IsRecord, Proper;
    SelectMembers(keep, vs);
    var r := Select(keep, vs);
    forall i | 0 <= i < |r| ensures IsRecord(r[i], kind) && Proper(r[i]) {
      assert r[i] in vs;
    }
  }

  /** What is left of a file when lines are removed: its parts in order, not all of them complete. */
  lemma RemovedLines(b: Bundle, keep: seq<bool>) returns (hs: seq<Value>, es: seq<Value>, cs: seq<Value>)
    requires ProperBundle(b) && Serializable(b)
    requires |keep| == |Printed(Records(b))| && exists i | 0 <= i < |keep| :: !keep[i]
    ensures FileOrder(b, hs, es, cs) && Select(keep, Printed(Records(b))) == Printed(hs + es + cs)
    ensures hs == [] || |es| != |b.entries| || |cs| != |b.checkpoints|
  {
    hide Accepts, Proper, HeaderValue, EntryValues, CheckpointValues, DistinctKeys, Select, Print, ByPosition, BySize,
      Printed, AllAccepted, FileOrder;
    var h, fs, ds := [HeaderValue(b)], EntryValues(ByPosition(b.entries)), CheckpointValues(BySize(b.checkpoints));
    BundleInFileOrder(b);
    SelectPrinted(keep, Records(b));
    var n := |h + fs|;
    var first := keep[..n];
    SelectConcat(first, keep[n..], h + fs, ds);
    SelectConcat(first[..1], first[1..], h, fs);
    assert keep == first + keep[n..] && first == first[..1] + first[1..];
    hs, es, cs := Select(first[..1], h), Select(first[1..], fs), Select(keep[n..], ds);
    KeptInFileOrder(b, first[..1], first[1..], keep[n..], h, fs, ds);
    SelectMembers(first[..1], h);
    SelectMembers(first[1..], fs);
    SelectMembers(keep[n..], ds);
    if hs != [] && |es| == |fs| && |cs| == |ds| {
      AllKept(keep, n);
      assert false;
    }
  }

  /** A file with any of its lines removed is rejected. */
  lemma EveryLineIsNeeded(parse: Parser, b: Bundle, keep: seq<bool>)
    requires Inverts(parse) && ProperBundle(b) && Serializable(b)
    requires |keep| == |Printed(Records(b))| && exists i | 0 <= i < |keep| :: !keep[i]
    ensures Parse(parse, JoinLines(Select(keep, Printed(Records(b))))).Err?
  {
    hide *;
    var hs, es, cs := RemovedLines(b, keep);
    SerializableParts(b);
    ProperSigners(b);
    ReadText(parse, b, hs, es, cs);
    FileValues(b, hs, es, cs);
    Rejected(b, hs, es, cs);
  }

  lemma ProperSigners(b: Bundle)
    requires ProperBundle(b)
    ensures DistinctKeys(b.signers)
  {}

  lemma FileValues(b: Bundle, hs: seq<Value>, es: seq<Value>, cs: seq<Value>)
    requires FileOrder(b, hs, es, cs)
    ensures AllAccepted(es) && AllAccepted(cs)
    ensures (forall i | 0 <= i < |es| :: es[i].Object?) && forall i | 0 <= i < |cs| :: cs[i].Object?
  {
    hide Accepts, Proper;
    FileParts(b, hs, es, cs);
    forall i | 0 <= i < |es| ensures es[i].Object? {
      assert IsRecord(es[i], ENTRY);
    }
    forall i | 0 <= i < |cs| ensures cs[i].Object? {
      assert IsRecord(cs[i], CHECKPOINT);
    }
  }

  lemma AllKept(keep: seq<bool>, n: nat)
    requires 1 <= n <= |keep|
    requires forall i | 0 <= i < 1 :: keep[..n][..1][i]
    requires forall i | 0 <= i < n - 1 :: keep[..n][1..][i]
    requires forall i | 0 <= i < |keep| - n :: keep[n..][i]
    ensures forall i | 0 <= i < |keep| :: keep[i]
  {
    forall i | 0 <= i < |keep| ensures keep[i] {
      if i == 0 {
        assert keep[..n][..1][0];
      } else if i < n {
        assert keep[..n][1..][i - 1];
      } else {
        assert keep[n..][i - n];
      }
    }
  }

  lemma KeptInFileOrder(b: Bundle, k: seq<bool>, m: seq<bool>, n: seq<bool>, hs: seq<Value>, es: seq<Value>,
      cs: seq<Value>)
    requires FileOrder(b, hs, es, cs) && |k| == |hs| && |m| == |es| && |n| == |cs|
    requires AllAccepted(Select(k, hs) + Select(m, es) + Select(n, cs))
    ensures FileOrder(b, Select(k, hs), Select(m, es), Select(n, cs))
  {
    hide AllRecords, AllAccepted, HeaderValue, Select;
    SelectRecords(k, hs, HEADER);
    SelectRecords(m, es, ENTRY);
    SelectRecords(n, cs, CHECKPOINT);
    OneOrNone(k, hs);
  }

  lemma OneOrNone(k: seq<bool>, hs: seq<Value>)
    requires |k| == |hs| <= 1
    ensures Select(k, hs) == [] || Select(k, hs) == hs
  {}

  lemma Rejected(b: Bundle, hs: seq<Value>, fs: seq<Value>, ds: seq<Value>)
    requires Accepts(HeaderValue(b)) && DistinctKeys(b.signers)
    requires AllAccepted(fs) && AllAccepted(ds) && (forall i | 0 <= i < |fs| :: fs[i].Object?)
      && forall i | 0 <= i < |ds| :: ds[i].Object?
    requires hs == [] || |fs| != |b.entries| || |ds| != |b.checkpoints|
    ensures Finish(Reading(HeaderOf(b, hs), RecordsOf(fs), RecordsOf(ds))).Err?
  {
    hide Accepts, HeaderValue, DistinctKeys, MeaningOf;
    HeaderIsRecord(b);
  }

  // ---------- the parsed records are the bundle ----------

  /** The same entry, up to the order of the keys in its payload. */
  predicate SameEntry(e: LogEntry, f: LogEntry) {
    && Accepts(e.payload) && Accepts(f.payload) && e == f.(payload := e.payload)
    && MeaningOf(e.payload) == MeaningOf(f.payload)
  }

  /** A property of an object other than `record` is among its fields. */
  lemma FieldIs(v: Value, i: nat, key: Text, value: Value)
    requires v.Object? && Accepts(v) && DistinctKeys(v.props) && i < |v.props| && v.props[i] == Field(key, value)
    requires |key| != |RECORD_KEY|
    ensures Accepts(value) && Get(Fields(v) - {RECORD_KEY}, key) == Some(MeaningOf(value))
  {
    hide Accepts, MeaningOf, DistinctKeys;
    ObjectMeans(v);
    Property(v, i);
  }

  lemma IntMeans(n: int)
    requires Accepts(Number(Whole(n)))
    ensures MeaningOf(Number(Whole(n))) == IntMeaning(n)
  {}

  lemma NumberField(v: Value, i: nat, key: Text, n: int)
    requires v.Object? && Accepts(v) && DistinctKeys(v.props) && i < |v.props|
      && v.props[i] == Field(key, Number(Whole(n)))
    requires |key| != |RECORD_KEY|
    ensures Get(Fields(v) - {RECORD_KEY}, key) == Some(IntMeaning(n))
  {
    hide *;
    FieldIs(v, i, key, Number(Whole(n)));
    IntMeans(n);
  }

  lemma TextField(v: Value, i: nat, key: Text, t: Text)
    requires v.Object? && Accepts(v) && DistinctKeys(v.props) && i < |v.props| && v.props[i] == Field(key, String(t))
    requires |key| != |RECORD_KEY|
    ensures Get(Fields(v) - {RECORD_KEY}, key) == Some(TextMeaning(t))
  {
    hide *;
    FieldIs(v, i, key, String(t));
    TextMeans(t);
  }

  ghost predicate EntryRecord(m: Record, e: LogEntry) {
    && Accepts(e.payload)
    && Get(m, SEQ_KEY) == Some(IntMeaning(e.seqNo)) && Get(m, TS_KEY) == Some(IntMeaning(e.ts))
    && Get(m, TYPE_KEY) == Some(TextMeaning(e.kind)) && Get(m, ACTOR_KEY) == Some(TextMeaning(e.actor))
    && Get(m, PAYLOAD_KEY) == Some(MeaningOf(e.payload)) && Get(m, PREV_HASH_KEY) == Some(TextMeaning(e.prevHash))
    && Get(m, HASH_KEY) == Some(TextMeaning(e.hash)) && Get(m, SIGNATURE_KEY) == Some(TextMeaning(e.signature))
    && Get(m, SIGNER_KEY) == Some(TextMeaning(e.signerPublicKey))
  }

  lemma EntryFields(e: LogEntry)
    requires Accepts(EntryValue(e))
    ensures EntryRecord(Fields(EntryValue(e)) - {RECORD_KEY}, e)
  {
    hide Accepts, MeaningOf, DistinctKeys, Fields, Get;
    var v := EntryValue(e);
    EntryKeys(e);
    NumberField(v, 1, SEQ_KEY, e.seqNo);
    NumberField(v, 2, TS_KEY, e.ts);
    TextField(v, 3, TYPE_KEY, e.kind);
    TextField(v, 4, ACTOR_KEY, e.actor);
    FieldIs(v, 5, PAYLOAD_KEY, e.payload);
    TextField(v, 6, PREV_HASH_KEY, e.prevHash);
    TextField(v, 7, HASH_KEY, e.hash);
    TextField(v, 8, SIGNATURE_KEY, e.signature);
    TextField(v, 9, SIGNER_KEY, e.signerPublicKey);
  }

  ghost predicate CheckpointRecord(m: Record, cp: Checkpoint) {
    && Accepts(Array(AnchorValues(cp.anchors)))
    && Get(m, SIZE_KEY) == Some(IntMeaning(cp.size)) && Get(m, ROOT_KEY) == Some(TextMeaning(cp.root))
    && Get(m, HEAD_HASH_KEY) == Some(TextMeaning(cp.headHash)) && Get(m, TS_KEY) == Some(IntMeaning(cp.ts))
    && Get(m, SIGNATURE_KEY) == Some(TextMeaning(cp.signature))
    && Get(m, SIGNER_KEY) == Some(TextMeaning(cp.signerPublicKey))
    && Get(m, ANCHORS_KEY) == Some(MeaningOf(Array(AnchorValues(cp.anchors))))
  }

  lemma CheckpointFields(cp: Checkpoint)
    requires Accepts(CheckpointValue(cp))
    ensures CheckpointRecord(Fields(CheckpointValue(cp)) - {RECORD_KEY}, cp)
  {
    hide Accepts, MeaningOf, DistinctKeys, Fields, Get, AnchorValues;
    var v := CheckpointValue(cp);
    CheckpointKeys(cp);
    NumberField(v, 1, SIZE_KEY, cp.size);
    TextField(v, 2, ROOT_KEY, cp.root);
    TextField(v, 3, HEAD_HASH_KEY, cp.headHash);
    NumberField(v, 4, TS_KEY, cp.ts);
    TextField(v, 5, SIGNATURE_KEY, cp.signature);
    TextField(v, 6, SIGNER_KEY, cp.signerPublicKey);
    FieldIs(v, 7, ANCHORS_KEY, Array(AnchorValues(cp.anchors)));
  }

  ghost predicate AnchorRecord(m: Record, a: Anchor) {
    && Get(m, BACKEND_KEY) == Some(TextMeaning(a.backend)) && Get(m, TSA_KEY) == Some(TextMeaning(a.tsa))
    && Get(m, URL_KEY) == Some(TextMeaning(a.url)) && Get(m, TOKEN_KEY) == Some(TextMeaning(a.token))
    && Get(m, GEN_TIME_KEY) == Some(IntMeaning(a.genTime)) && Get(m, IMPRINT_KEY) == Some(TextMeaning(a.imprint))
    && Get(m, HASH_ALGORITHM_KEY) == Some(TextMeaning(a.hashAlgorithm))
  }

  lemma AnchorFields(a: Anchor)
    requires Accepts(AnchorValue(a))
    ensures AnchorRecord(Fields(AnchorValue(a)) - {RECORD_KEY}, a)
  {
    hide Accepts, MeaningOf, DistinctKeys, Fields, Get;
    var v := AnchorValue(a);
    AnchorKeys(a);
    TextField(v, 0, BACKEND_KEY, a.backend);
    TextField(v, 1, TSA_KEY, a.tsa);
    TextField(v, 2, URL_KEY, a.url);
    TextField(v, 3, TOKEN_KEY, a.token);
    NumberField(v, 4, GEN_TIME_KEY, a.genTime);
    TextField(v, 5, IMPRINT_KEY, a.imprint);
    TextField(v, 6, HASH_ALGORITHM_KEY, a.hashAlgorithm);
  }

  lemma SameAnchors(a: seq<Anchor>, b: seq<Anchor>)
    requires Accepts(Array(AnchorValues(a))) && Accepts(Array(AnchorValues(b)))
    requires MeaningOf(Array(AnchorValues(a))) == MeaningOf(Array(AnchorValues(b)))
    ensures a == b
  {
    hide AnchorValue, Get, AnchorRecord;
    var x, y := MeaningOf(Array(AnchorValues(a))).items, MeaningOf(Array(AnchorValues(b))).items;
    assert |x| == |a| && |y| == |b|;
    forall i | 0 <= i < |a| ensures a[i] == b[i] {
      assert Accepts(AnchorValues(a)[i]) && Accepts(AnchorValues(b)[i]);
      assert x[i] == MeaningOf(AnchorValue(a[i])) && y[i] == MeaningOf(AnchorValue(b[i]));
      AnchorFields(a[i]);
      AnchorFields(b[i]);
      SameAnchor(Fields(AnchorValue(a[i])) - {RECORD_KEY}, a[i], b[i]);
    }
  }

  lemma SameAnchor(m: Record, a: Anchor, b: Anchor)
    requires AnchorRecord(m, a) && AnchorRecord(m, b)
    ensures a == b
  {
    hide Get;
  }

  /** Equal contents come from the same bundle: what parsing returns determines what was serialised. */
  lemma SameViewSameBundle(a: Bundle, b: Bundle)
    requires Serializable(a) && Serializable(b) && View(a) == View(b)
    ensures a.examId == b.examId && |a.entries| == |b.entries|
    ensures forall i | 0 <= i < |a.entries| :: SameEntry(ByPosition(a.entries)[i], ByPosition(b.entries)[i])
    ensures BySize(a.checkpoints) == BySize(b.checkpoints)
    ensures AsMap(a.signers) == AsMap(b.signers)
  {
    hide Accepts, MeaningOf, HeaderValue, AsMap, EntryValue, CheckpointValue, Fields, ByPosition, BySize,
      SignersMeaningOf, EntryRecord, CheckpointRecord, SameEntry;
    SerializableParts(a);
    SerializableParts(b);
    var es, fs := ByPosition(a.entries), ByPosition(b.entries);
    assert |es| == |View(a).entries| && |fs| == |View(b).entries|;
    forall i | 0 <= i < |es| ensures SameEntry(es[i], fs[i]) {
      assert Accepts(EntryValues(es)[i]);
      assert View(a).entries[i] == Fields(EntryValue(es[i])) - {RECORD_KEY};
      assert Accepts(EntryValues(fs)[i]);
      assert View(b).entries[i] == Fields(EntryValue(fs[i])) - {RECORD_KEY};
      EntryFields(es[i]);
      EntryFields(fs[i]);
      SameEntryRecord(View(a).entries[i], es[i], fs[i]);
    }
    var cs, ds := BySize(a.checkpoints), BySize(b.checkpoints);
    assert |cs| == |View(a).checkpoints| && |ds| == |View(b).checkpoints|;
    forall i | 0 <= i < |cs| ensures cs[i] == ds[i] {
      assert Accepts(CheckpointValues(cs)[i]);
      assert View(a).checkpoints[i] == Fields(CheckpointValue(cs[i])) - {RECORD_KEY};
      assert Accepts(CheckpointValues(ds)[i]);
      assert View(b).checkpoints[i] == Fields(CheckpointValue(ds[i])) - {RECORD_KEY};
      CheckpointFields(cs[i]);
      CheckpointFields(ds[i]);
      SameCheckpointRecord(View(a).checkpoints[i], cs[i], ds[i]);
    }
    SameSigners(a, b);
  }

  lemma {:induction false} SignersAreAMap(signers: seq<Field<Text>>, owner: Value)
    requires owner.Object? && forall i | 0 <= i < |signers| :: SignerProps(signers)[i] in owner.props
    ensures (forall i | 0 <= i < |signers| :: Accepts(SignerProps(signers)[i].value))
            && MapOf(SignerProps(signers), owner) == map k | k in AsMap(signers) :: TextMeaning(AsMap(signers)[k])
  {
    if signers != [] {
      var ps := SignerProps(signers);
      assert ps[1..] == SignerProps(signers[1..]);
      SignersAreAMap(signers[1..], owner);
      assert MapOf(ps, owner) == MapOf(ps[1..], owner)[signers[0].key := TextMeaning(signers[0].value)];
    }
  }

  lemma SignersMean(b: Bundle)
    requires Accepts(HeaderValue(b))
    ensures SignersMeaningOf(b) == MapMeaning(map k | k in AsMap(b.signers) :: TextMeaning(AsMap(b.signers)[k]))
  {
    hide AsMap, HeaderValue, Accepts;
    SignersMeaning(b);
    var v := Object(SignerProps(b.signers));
    SignersAreAMap(b.signers, v);
    ObjectMeans(v);
  }

  lemma SameSigners(a: Bundle, b: Bundle)
    requires Accepts(HeaderValue(a)) && Accepts(HeaderValue(b)) && SignersMeaningOf(a) == SignersMeaningOf(b)
    ensures AsMap(a.signers) == AsMap(b.signers)
  {
    hide AsMap, HeaderValue, Accepts, SignersMeaningOf;
    SignersMean(a);
    SignersMean(b);
    var m, n := AsMap(a.signers), AsMap(b.signers);
    var x, y := map k | k in m :: TextMeaning(m[k]), map k | k in n :: TextMeaning(n[k]);
    assert x == y && x.Keys == m.Keys && y.Keys == n.Keys;
    forall k | k in m ensures m[k] == n[k] {
      assert x[k] == y[k];
    }
  }

  lemma SameEntryRecord(m: Record, e: LogEntry, f: LogEntry)
    requires EntryRecord(m, e) && EntryRecord(m, f)
    ensures SameEntry(e, f)
  {
    hide Get, Accepts, MeaningOf;
  }

  lemma SameCheckpointRecord(m: Record, a: Checkpoint, b: Checkpoint)
    requires CheckpointRecord(m, a) && CheckpointRecord(m, b)
    ensures a == b
  {
    hide Get, Accepts, MeaningOf;
    SameAnchors(a.anchors, b.anchors);
  }

  // ---------- writing the file ----------

  /** Prints the values one line each, or stops at one that has no canonical text. */
  method PushLines(lines: seq<Text>, vs: seq<Value>) returns (r: Option<seq<Text>>)
    ensures r.Some? <==> AllAccepted(vs)
    ensures r.Some? ==> r.value == lines + Printed(vs)
  {
    hide Accepts, Print;
    var out := lines;
    for i := 0 to |vs|
      invariant forall j | 0 <= j < i :: Accepts(vs[j])
      invariant out == lines + Printed(vs[..i])
    {
      var line := Canonicalize(vs[i]);
      if line.Err? {
        return None;
      }
      out := out + [line.value];
    }
    assert vs[..|vs|] == vs;
    r := Some(out);
  }

  predicate PartsAccepted(b: Bundle) {
    && AllAccepted([HeaderValue(b)]) && AllAccepted(EntryValues(ByPosition(b.entries)))
    && AllAccepted(CheckpointValues(BySize(b.checkpoints)))
  }

  function PartsPrinted(b: Bundle): seq<Text>
    requires PartsAccepted(b)
  {
    Printed([HeaderValue(b)]) + Printed(EntryValues(ByPosition(b.entries)))
    + Printed(CheckpointValues(BySize(b.checkpoints)))
  }

  lemma AcceptedParts(b: Bundle)
    ensures Serializable(b) <==> PartsAccepted(b)
    ensures PartsAccepted(b) ==> AllAccepted(Records(b)) && Printed(Records(b)) == PartsPrinted(b)
  {
    hide Accepts, Print, HeaderValue, EntryValues, CheckpointValues, ByPosition, BySize;
    if Serializable(b) {
      SerializableParts(b);
    }
  }

  method SerializeEvidence(b: Bundle) returns (r: Option<Text>)
    ensures r.Some? <==> Serializable(b)
    ensures r.Some? ==> r.value == Serialized(b)
    ensures r.Some? && ProperBundle(b) ==> Parse(CanonicalParser, r.value) == Ok(View(b))
  {
    hide Accepts, Print, HeaderValue, EntryValues, CheckpointValues, ByPosition, BySize, JoinLines, Parse, ProperBundle,
      View, Serializable, Printed, AllAccepted, Records, Serialized, Inverts;
    AcceptedParts(b);
    var lines := PushLines([], [HeaderValue(b)]);
    if lines.None? {
      return None;
    }
    lines := PushLines(lines.value, EntryValues(ByPosition(b.entries)));
    if lines.None? {
      return None;
    }
    lines := PushLines(lines.value, CheckpointValues(BySize(b.checkpoints)));
    if lines.None? {
      return None;
    }
    assert lines.value == Printed(Records(b));
    r := Some(JoinLines(lines.value));
    IsTheFile(b);
    if ProperBundle(b) {
      CanonicalParserInverts();
      ParseSerialized(CanonicalParser, b);
    }
  }

  lemma IsTheFile(b: Bundle)
    requires Serializable(b)
    ensures AllAccepted(Records(b)) && Serialized(b) == JoinLines(Printed(Records(b)))
  {}
}
