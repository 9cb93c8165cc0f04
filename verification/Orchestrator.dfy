/**
 * The batch run of `main`: derive the month's file name, load the existing table
 * (or start from an empty one), process each message, and merge, write and upload
 * only when some message produced a table. The external steps are oracles.
 */
module Orchestrator {
  import opened Wrappers
  import opened Tables
  import opened Merger
  import opened Period

  type Bytes = seq<bv8>

  /** A raw mail document as returned by the mailbox search. */
  datatype Message = Message(raw: Bytes)

  /**
   * The external collaborators, as total functions: the text/html part of a
   * message, the href of the "Baixar CSV" anchor, the HTTP download, the CSV
   * parser and the spreadsheet parser, and the Drive lookup of a file name.
   * `None` is a failure of that step.
   */
  datatype Env = Env(
    driveLookup: string -> DriveFile,
    htmlOf: Message -> Option<string>,
    csvLinkOf: string -> Option<string>,
    download: string -> Option<Bytes>,
    readCsv: Bytes -> Option<Table>,
    readExcel: Bytes -> Option<Table>)

  /** Python truthiness of an optional string or byte string: present and non-empty. */
  predicate Truthy<T>(o: Option<seq<T>>) {
    o.Some? && o.value != []
  }

  /** Why a message contributed nothing. */
  datatype Skip = NoHtml | NoLink | NoDownload | BadCsv

  /** The outcome of processing one message. */
  datatype Processed = Skipped(reason: Skip) | Parsed(table: Table)

  /**
   * One iteration of the message loop as a step function: the first step that
   * fails decides the skip reason; a table results only when every step succeeds.
   */
  function ProcessMessage(env: Env, m: Message): (p: Processed)
    ensures p.Parsed? <==>
              Truthy(env.htmlOf(m)) &&
              Truthy(env.csvLinkOf(env.htmlOf(m).value)) &&
              Truthy(env.download(env.csvLinkOf(env.htmlOf(m).value).value)) &&
              env.readCsv(env.download(env.csvLinkOf(env.htmlOf(m).value).value).value).Some?
    ensures p.Parsed? ==>
              Some(p.table) == env.readCsv(env.download(env.csvLinkOf(env.htmlOf(m).value).value).value)
    ensures p == Skipped(NoHtml) <==> !Truthy(env.htmlOf(m))
    ensures p == Skipped(NoLink) <==>
              Truthy(env.htmlOf(m)) && !Truthy(env.csvLinkOf(env.htmlOf(m).value))
    ensures p == Skipped(NoDownload) <==>
              Truthy(env.htmlOf(m)) && Truthy(env.csvLinkOf(env.htmlOf(m).value)) &&
              !Truthy(env.download(env.csvLinkOf(env.htmlOf(m).value).value))
    ensures p == Skipped(BadCsv) <==>
              Truthy(env.htmlOf(m)) && Truthy(env.csvLinkOf(env.htmlOf(m).value)) &&
              Truthy(env.download(env.csvLinkOf(env.htmlOf(m).value).value)) &&
              env.readCsv(env.download(env.csvLinkOf(env.htmlOf(m).value).value).value).None?
  {
    var html := env.htmlOf(m);
    if !Truthy(html) then Skipped(NoHtml)
    else
      var csvUrl := env.csvLinkOf(html.value);
      if !Truthy(csvUrl) then Skipped(NoLink)
      else
        var csvData := env.download(csvUrl.value);
        if !Truthy(csvData) then Skipped(NoDownload)
        else
          match env.readCsv(csvData.value)
          case None => Skipped(BadCsv)
          case Some(t) => Parsed(t)
  }

  /**
   * The tables the message loop collects, in message order: at most one per
   * message, and one for every message when all of them succeed.
   */
  function Contributions(env: Env, messages: seq<Message>): (tables: seq<Table>)
    ensures |tables| <= |messages|
    ensures (forall i :: 0 <= i < |messages| ==> ProcessMessage(env, messages[i]).Parsed?) ==>
              |tables| == |messages|
  {
    if messages == [] then []
    else
      var last := messages[|messages| - 1];
      assert forall i :: 0 <= i < |messages| - 1 ==> messages[..|messages| - 1][i] == messages[i];
      Contributions(env, messages[..|messages| - 1]) +
        match ProcessMessage(env, last)
        case Parsed(t) => [t]
        case Skipped(_) => []
  }

  /** The positions of the messages that produced a table, in increasing order. */
  function SuccessIndices(env: Env, messages: seq<Message>): seq<nat> {
    if messages == [] then []
    else
      var n := |messages| - 1;
      SuccessIndices(env, messages[..n]) + if ProcessMessage(env, messages[n]).Parsed? then [n] else []
  }

  /** One more message appends its table, if it yields one, to what the earlier messages gave. */
  lemma ContributionsStep(env: Env, messages: seq<Message>, i: nat)
    requires i < |messages|
    ensures Contributions(env, messages[..i + 1]) ==
              Contributions(env, messages[..i]) +
                if ProcessMessage(env, messages[i]).Parsed? then [ProcessMessage(env, messages[i]).table] else []
  {
    assert messages[..i + 1][..i] == messages[..i];
  }

  /** Processing is compositional: a later batch of messages only appends. */
  lemma {:induction false} ContributionsAppend(env: Env, a: seq<Message>, b: seq<Message>)
    ensures Contributions(env, a + b) == Contributions(env, a) + Contributions(env, b)
  {
    if b == [] {
      assert a + b == a;
    } else {
      var n := |b| - 1;
      assert (a + b)[..|a + b| - 1] == a + b[..n];
      assert (a + b)[|a + b| - 1] == b[n];
      ContributionsAppend(env, a, b[..n]);
    }
  }

  /** A failing message is skipped alone; the messages around it contribute as before. */
  lemma SkipOnlyThatMessage(env: Env, a: seq<Message>, m: Message, b: seq<Message>)
    requires ProcessMessage(env, m).Skipped?
    ensures Contributions(env, a + [m] + b) == Contributions(env, a) + Contributions(env, b)
  {
    ContributionsAppend(env, a + [m], b);
    ContributionsAppend(env, a, [m]);
    assert [m][..0] == [];
    assert Contributions(env, [m]) == [];
    assert Contributions(env, a + [m]) == Contributions(env, a);
  }

  /** A successful message contributes its table, between those of the messages around it. */
  lemma ParsedMessageContributes(env: Env, a: seq<Message>, m: Message, b: seq<Message>)
    requires ProcessMessage(env, m).Parsed?
    ensures Contributions(env, a + [m] + b) ==
              Contributions(env, a) + [ProcessMessage(env, m).table] + Contributions(env, b)
  {
    ContributionsAppend(env, a + [m], b);
    ContributionsAppend(env, a, [m]);
    assert [m][..0] == [];
  }

  /**
   * Exactly the fully successful messages contribute, each its parsed table, in
   * message order: the j-th collected table is the table of the j-th successful message.
   */
  lemma {:induction false} ContributionsInOrder(env: Env, messages: seq<Message>)
    ensures |SuccessIndices(env, messages)| == |Contributions(env, messages)| <= |messages|
    ensures forall j :: 0 <= j < |SuccessIndices(env, messages)| ==>
              SuccessIndices(env, messages)[j] < |messages| &&
              ProcessMessage(env, messages[SuccessIndices(env, messages)[j]]) == Parsed(Contributions(env, messages)[j])
    ensures forall j1, j2 :: 0 <= j1 < j2 < |SuccessIndices(env, messages)| ==>
              SuccessIndices(env, messages)[j1] < SuccessIndices(env, messages)[j2]
    ensures forall i :: 0 <= i < |messages| && ProcessMessage(env, messages[i]).Parsed? ==>
              i in SuccessIndices(env, messages)
  {
    if messages != [] {
      var n := |messages| - 1;
      var init := messages[..n];
      ContributionsInOrder(env, init);
      assert forall i :: 0 <= i < n ==> init[i] == messages[i];
    }
  }

  /**
   * Three messages of which the middle one has no "Baixar CSV" link: only the
   * other two contribute, in order.
   */
  lemma MiddleMessageWithoutLink(env: Env, m0: Message, m1: Message, m2: Message)
    requires ProcessMessage(env, m0).Parsed? && ProcessMessage(env, m2).Parsed?
    requires Truthy(env.htmlOf(m1)) && !Truthy(env.csvLinkOf(env.htmlOf(m1).value))
    ensures Contributions(env, [m0, m1, m2]) ==
              [ProcessMessage(env, m0).table, ProcessMessage(env, m2).table]
  {
    assert [m0, m1, m2] == [m0] + [m1] + [m2];
    SkipOnlyThatMessage(env, [m0], m1, [m2]);
    assert [m0][..0] == [] && [m2][..0] == [];
  }

  /**
   * What `download_file_from_drive` gives `main`: an exception escaping it
   * (token refresh, file listing or download), no file (no Drive service, or no
   * file of that name), or the downloaded content.
   */
  datatype DriveFile = DriveFailure | Missing | Downloaded(content: Bytes)

  /** The month's table before merging: the Drive file if it parses, else an empty table with TAG. */
  function BaseTable(env: Env, remote: DriveFile): (t: Table)
    ensures !remote.Downloaded? || env.readExcel(remote.content).None? ==> t.columns == {Tag} && t.rows == []
    ensures remote.Downloaded? && env.readExcel(remote.content).Some? ==> Some(t) == env.readExcel(remote.content)
  {
    if remote.Downloaded? && env.readExcel(remote.content).Some? then env.readExcel(remote.content).value
    else Frame({Tag}, [])
  }

  /**
   * How a run ends: stopped by an exception from the Drive lookup, the two early
   * exits, or the merged sheet written locally, with whether it reached the Drive.
   */
  datatype RunOutcome =
    | Aborted
    | NoMessages
    | NoData
    | Written(localPath: string, remoteName: string, sheet: Sheet, uploaded: bool)

  /** The local directory the spreadsheet is written to. */
  const ArquivosDir: string := "Arquivos"

  /**
   * `main`, given the current year and month, the messages of the day, and whether
   * writing and uploading the sheet succeeds (`upload_to_drive` returns without
   * uploading when no Drive service is available). The month's file is looked up
   * on the Drive under the same name the sheet is later written and uploaded as.
   */
  method Run(env: Env, year: int, month: int, messages: seq<Message>, uploadSucceeds: bool)
    returns (outcome: RunOutcome)
    requires ValidPeriod(year, month)
    ensures outcome == Aborted <==> env.driveLookup(PeriodFileName(year, month)) == DriveFailure
    ensures outcome == NoMessages <==>
              env.driveLookup(PeriodFileName(year, month)) != DriveFailure && messages == []
    ensures outcome == NoData <==>
              env.driveLookup(PeriodFileName(year, month)) != DriveFailure &&
              messages != [] && Contributions(env, messages) == []
    ensures outcome.Written? <==>
              env.driveLookup(PeriodFileName(year, month)) != DriveFailure && Contributions(env, messages) != []
    ensures outcome.Written? ==>
              outcome.localPath == ArquivosDir + "/" + PeriodFileName(year, month) &&
              outcome.remoteName == PeriodFileName(year, month) &&
              outcome.sheet ==
                Merge(BaseTable(env, env.driveLookup(PeriodFileName(year, month))), Contributions(env, messages)) &&
              outcome.uploaded == uploadSucceeds
  {
    var nomeArquivo := PeriodFileName(year, month);
    var filePath := ArquivosDir + "/" + nomeArquivo;
    var remote := env.driveLookup(nomeArquivo);

    var existente: Table;
    match remote {
      case DriveFailure =>
        return Aborted;
      case Downloaded(content) =>
        // The Drive copy is downloaded to `filePath`, the local path the run later writes.
        match env.readExcel(content) {
          case Some(t) =>
            existente := t;
          case None =>
            existente := Frame({Tag}, []);
        }
      case Missing =>
        existente := Frame({Tag}, []);
    }

    if messages == [] {
      return NoMessages;
    }

    var allDfs: seq<Table> := [];
    for i := 0 to |messages|
      invariant allDfs == Contributions(env, messages[..i])
    {
      ContributionsStep(env, messages, i);
      var msg := messages[i];
      var html := env.htmlOf(msg);
      if !Truthy(html) {
        continue;
      }
      var csvUrl := env.csvLinkOf(html.value);
      if Truthy(csvUrl) {
        var csvData := env.download(csvUrl.value);
        if Truthy(csvData) {
          var dfCsv := env.readCsv(csvData.value);
          if dfCsv.Some? {
            allDfs := allDfs + [dfCsv.value];
          }
        }
      }
    }
    assert messages[..|messages|] == messages;
    assert existente == BaseTable(env, remote);

    if allDfs != [] {
      outcome := Written(filePath, nomeArquivo, Merge(existente, allDfs), uploadSucceeds);
    } else {
      outcome := NoData;
    }
  }
}
