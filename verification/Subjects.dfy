/** NATS subjects and the signed webhook text: what the receiver reads back. */
module Subjects {
  import opened Text
  import opened Events

  /** The event part of a subject. */
  function EventName(e: Event): string {
    "file" + "." + Suffix(e)
  }

  function Suffix(e: Event): string {
    match e
    case UploadInitiated => "upload.initiated"
    case Uploaded => "uploaded"
    case FileReady(_) => "ready"
    case FileQuarantined => "quarantined"
    case ProcessingFailed => "processing_failed"
    case Restored => "restored"
    case Deleted => "deleted"
  }

  /** Different events have different names, but for the two ways to become ready. */
  lemma EventNamesDiffer(d: Event, e: Event)
    ensures EventName(d) == EventName(e) <==> d == e || (d.FileReady? && e.FileReady?)
  {
    assert EventName(d)[5..] == Suffix(d) && EventName(e)[5..] == Suffix(e);
    SuffixLetters(d);
    SuffixLetters(e);
  }

  lemma SuffixLetters(e: Event)
    ensures |Suffix(e)| > 6 ==> Suffix(e)[0] == (if e.UploadInitiated? || e.Uploaded? then 'u'
                                                 else if e.FileQuarantined? then 'q'
                                                 else if e.ProcessingFailed? then 'p'
                                                 else if e.Restored? then 'r' else 'd')
    ensures |Suffix(e)| == match e
                           case UploadInitiated => 16
                           case Uploaded => 8
                           case FileReady(_) => 5
                           case FileQuarantined => 11
                           case ProcessingFailed => 17
                           case Restored => 8
                           case Deleted => 7
  {
  }

  /** The names receivers subscribe to. */
  lemma EventNameIs(e: Event)
    ensures EventName(e) == match e
                            case UploadInitiated => "file.upload.initiated"
                            case Uploaded => "file.uploaded"
                            case FileReady(_) => "file.ready"
                            case FileQuarantined => "file.quarantined"
                            case ProcessingFailed => "file.processing_failed"
                            case Restored => "file.restored"
                            case Deleted => "file.deleted"
  {
    match e
    case UploadInitiated => assert "file" + "." + "upload.initiated" == "file.upload.initiated";
    case Uploaded => assert "file" + "." + "uploaded" == "file.uploaded";
    case FileReady(_) => assert "file" + "." + "ready" == "file.ready";
    case FileQuarantined => assert "file" + "." + "quarantined" == "file.quarantined";
    case ProcessingFailed => assert "file" + "." + "processing_failed" == "file.processing_failed";
    case Restored => assert "file" + "." + "restored" == "file.restored";
    case Deleted => assert "file" + "." + "deleted" == "file.deleted";
  }

  /** f"filenest.{organization_id}.{project_id}.{event}". */
  function Subject(org: string, project: string, event: string): string {
    "filenest" + "." + org + "." + project + "." + event
  }

  /** A subscription filter: '*' stands for any one token. */
  predicate FilterMatches(filter: seq<string>, tokens: seq<string>) {
    |filter| == |tokens| && forall i :: 0 <= i < |filter| ==> filter[i] == "*" || filter[i] == tokens[i]
  }

  const PROCESSING_FILTER := ["filenest", "*", "*", "file", "uploaded"]
  const WEBHOOK_FILTER := ["filenest", "*", "*", "file", "*"]

  datatype Parsed = Parsed(org: string, project: string, event: string) | Malformed

  /** The webhook handler's reading of a subject; fewer than five tokens raise IndexError. */
  function Parse(subject: string): Parsed {
    var parts := Split(subject, '.');
    if |parts| < 5 then Malformed else Parsed(parts[1], parts[2], parts[3] + "." + parts[4])
  }

  lemma SplitCons(c: char, s: string, sep: char)
    ensures var rest := Split(s, sep);
            Split([c] + s, sep) == if c == sep then [""] + rest else [[c] + rest[0]] + rest[1..]
  {
    assert ([c] + s)[1..] == s;
  }

  lemma Peel(a: string, c: char, b: string)
    requires a != ""
    ensures a == [a[0]] + a[1..] && a + [c] + b == [a[0]] + (a[1..] + [c] + b)
  {
  }

  /** What SplitCons does to a concatenation it does to its front. */
  lemma SpliceStep(c: char, front: seq<string>, back: seq<string>)
    requires front != []
    ensures [""] + (front + back) == [""] + front + back
    ensures [[c] + (front + back)[0]] + (front + back)[1..] == [[c] + front[0]] + front[1..] + back
  {
    assert (front + back)[1..] == front[1..] + back;
  }

  lemma {:induction false} SplitSplices(a: string, b: string, sep: char)
    ensures Split(a + [sep] + b, sep) == Split(a, sep) + Split(b, sep)
  {
    if a == "" {
      assert a + [sep] + b == [sep] + b;
      SplitCons(sep, b, sep);
    } else {
      SplitSplices(a[1..], b, sep);
      SplitCons(a[0], a[1..], sep);
      SplitCons(a[0], a[1..] + [sep] + b, sep);
      SpliceStep(a[0], Split(a[1..], sep), Split(b, sep));
      Peel(a, sep, b);
    }
  }

  lemma {:induction false} OnePiece(s: string, sep: char)
    ensures |Split(s, sep)| == 1 <==> sep !in s
    ensures sep !in s ==> Split(s, sep) == [s]
  {
    if sep !in s {
      SplitSeparatorFree(s, sep);
    } else {
      JoinOfSplit(s, sep);
      if |Split(s, sep)| == 1 {
        FirstPieceIsFree(s, sep);
      }
    }
  }

  /** The tokens of a subject are those of its four components. */
  lemma SubjectTokens(org: string, project: string, event: string)
    ensures Split(Subject(org, project, event), '.')
            == ["filenest"] + Split(org, '.') + Split(project, '.') + Split(event, '.')
  {
    SplitSeparatorFree("filenest", '.');
    SplitSplices("filenest", org, '.');
    SplitSplices("filenest" + "." + org, project, '.');
    SplitSplices("filenest" + "." + org + "." + project, event, '.');
  }

  lemma TwoTokens(a: string, b: string)
    requires '.' !in a && '.' !in b
    ensures Split(a + "." + b, '.') == [a, b]
  {
    SplitAtSeparator(a, b, '.');
    SplitSeparatorFree(b, '.');
  }

  lemma SuffixTokens(e: Event)
    ensures Split(Suffix(e), '.') == if e.UploadInitiated? then ["upload", "initiated"] else [Suffix(e)]
  {
    if e.UploadInitiated? {
      assert "upload.initiated" == "upload" + "." + "initiated";
      TwoTokens("upload", "initiated");
    } else {
      SplitSeparatorFree(Suffix(e), '.');
    }
  }

  /** Every event but file.upload.initiated has exactly two tokens. */
  lemma EventTokens(e: Event)
    ensures Split(EventName(e), '.')
            == if e.UploadInitiated? then ["file", "upload", "initiated"] else ["file", Suffix(e)]
  {
    SplitAtSeparator("file", Suffix(e), '.');
    SuffixTokens(e);
  }

  /** A committed event reaches the processing consumer exactly when it is file.uploaded and both ids are
      free of dots. */
  lemma ProcessingReceives(org: string, project: string, e: Event)
    ensures FilterMatches(PROCESSING_FILTER, Split(Subject(org, project, EventName(e)), '.'))
            <==> '.' !in org && '.' !in project && e.Uploaded?
  {
    FiveTokens(org, project, e);
    if '.' !in org && '.' !in project {
      LastToken(e);
      var f, t := PROCESSING_FILTER, Split(Subject(org, project, EventName(e)), '.');
      assert f[0] == "filenest" && f[1] == "*" && f[2] == "*" && f[3] == "file" && f[4] == "uploaded" != "*";
      if !e.UploadInitiated? {
        assert t[0] == "filenest" && t[3] == "file" && t[4] == Suffix(e);
      }
    }
  }

  lemma LastToken(e: Event)
    ensures Suffix(e) == "uploaded" <==> e.Uploaded?
  {
  }

  /** A subject has five tokens exactly when its ids have no dots and its event has two tokens. */
  lemma FiveTokens(org: string, project: string, e: Event)
    ensures var tokens := Split(Subject(org, project, EventName(e)), '.');
      && (|tokens| == 5 <==> '.' !in org && '.' !in project && !e.UploadInitiated?)
      && ('.' !in org && '.' !in project && !e.UploadInitiated? ==>
            tokens == ["filenest", org, project, "file", Suffix(e)])
  {
    SubjectTokens(org, project, EventName(e));
    OnePiece(org, '.');
    OnePiece(project, '.');
    EventTokens(e);
  }

  /** The webhook consumer receives every event but file.upload.initiated, for dot-free ids; and what it
      receives it parses back to the organisation, project and event that were published. */
  lemma WebhookReceives(org: string, project: string, e: Event)
    ensures FilterMatches(WEBHOOK_FILTER, Split(Subject(org, project, EventName(e)), '.'))
            <==> '.' !in org && '.' !in project && !e.UploadInitiated?
    ensures FilterMatches(WEBHOOK_FILTER, Split(Subject(org, project, EventName(e)), '.'))
            ==> Parse(Subject(org, project, EventName(e))) == Parsed(org, project, EventName(e))
  {
    FiveTokens(org, project, e);
    EventTokens(e);
  }

  /** The text _sign signs: f"{timestamp}.{body}". */
  function SignedPayload(timestamp: nat, body: string): string {
    Decimal(timestamp) + "." + body
  }

  /** No two (timestamp, body) pairs are signed as the same text, even though bodies may contain dots. */
  lemma SignedPayloadInjective(t: nat, body: string, t': nat, body': string)
    requires SignedPayload(t, body) == SignedPayload(t', body')
    ensures t == t' && body == body'
  {
    assert !IsDigit('.');
    FirstSeparatorUnique(Decimal(t), body, Decimal(t'), body', '.');
    ValueOfDecimal(t);
    ValueOfDecimal(t');
  }
}
