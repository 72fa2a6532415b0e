/** Lists stored as comma-separated text: backend/app/services/project_config.py, services/webhook.py and
    workers/webhook.py. */
module Csv {
  import opened Options
  import opened Text

  /** (v.strip() for v in values if v.strip()). */
  function Kept(values: seq<string>): seq<string> {
    if values == [] then []
    else (if Strip(values[0]) != "" then [Strip(values[0])] else []) + Kept(values[1..])
  }

  /** An item is kept exactly when it is what some value is between its outer blanks, and is not empty. */
  lemma {:induction false} KeptExactly(values: seq<string>, item: string)
    ensures item in Kept(values) <==> item != "" && exists v :: v in values && Core(v, item)
  {
    if values != [] {
      KeptExactly(values[1..], item);
      StripExactly(values[0], item);
      assert forall v :: v in values <==> v == values[0] || v in values[1..];
    }
  }

  /** The values' order is kept, repetitions included. */
  lemma {:induction false} KeptInOrder(a: seq<string>, b: seq<string>)
    ensures Kept(a + b) == Kept(a) + Kept(b)
  {
    if a == [] {
      assert a + b == b;
    } else {
      assert (a + b)[1..] == a[1..] + b;
      KeptInOrder(a[1..], b);
    }
  }

  /** _join. */
  function JoinField(values: Option<seq<string>>): Option<string> {
    match values
    case None => None
    case Some(vs) => if Join(Kept(vs), ',') == "" then None else Some(Join(Kept(vs), ','))
  }

  /** _split. */
  function SplitField(text: Option<string>): Option<seq<string>> {
    if text == None || text == Some("") then None else Some(Kept(Split(text.value, ',')))
  }

  /** A column is read as null exactly when it is null or empty, and otherwise as the pieces between its commas
      without their outer blanks, blank ones dropped. */
  lemma SplitFieldExactly(text: Option<string>, item: string)
    ensures SplitField(text).None? <==> text == None || text == Some("")
    ensures SplitField(text).Some? ==>
              (item in SplitField(text).value
               <==> item != "" && exists piece :: piece in Split(text.value, ',') && Core(piece, item))
  {
    if SplitField(text).Some? {
      KeptExactly(Split(text.value, ','), item);
    }
  }

  ghost predicate CommaFree(values: seq<string>) {
    forall v :: v in values ==> ',' !in v
  }

  /** What stripping keeps: non-blank, already stripped, and made of characters of the input. */
  ghost predicate Clean(values: seq<string>) {
    forall v :: v in values ==> v != "" && Strip(v) == v
  }

  lemma {:induction false} KeptIsClean(values: seq<string>)
    ensures Clean(Kept(values))
    ensures CommaFree(values) ==> CommaFree(Kept(values))
  {
    if values != [] {
      StripFacts(values[0]);
      KeptIsClean(values[1..]);
      assert values[0] in values;
      assert forall v :: v in values[1..] ==> v in values;
    }
  }

  lemma {:induction false} KeptOfClean(values: seq<string>)
    requires Clean(values)
    ensures Kept(values) == values
  {
    if values != [] {
      assert values[0] in values;
      assert forall v :: v in values[1..] ==> v in values;
      KeptOfClean(values[1..]);
    }
  }

  lemma JoinEmpty(values: seq<string>)
    requires Clean(values)
    ensures Join(values, ',') == "" <==> values == []
  {
    if values != [] {
      assert values[0] in values;
    }
  }

  /** Reading back what was stored gives the stripped list with blanks dropped, null when nothing is left,
      exactly when no kept item contains a comma. */
  lemma RoundTripExactly(values: seq<string>)
    ensures SplitField(JoinField(Some(values))) == (if Kept(values) == [] then None else Some(Kept(values)))
            <==> CommaFree(Kept(values))
  {
    var kept := Kept(values);
    KeptIsClean(values);
    JoinEmpty(kept);
    if kept != [] {
      var text := Join(kept, ',');
      if CommaFree(kept) {
        SplitOfJoin(kept, ',');
        KeptOfClean(kept);
      }
      KeptIsClean(Split(text, ','));
      assert CommaFree(Kept(Split(text, ',')));
    }
  }

  /** Storing what was read is a normal form: doing it again changes nothing. */
  lemma NormalForm(text: Option<string>)
    ensures var once := JoinField(SplitField(text)); JoinField(SplitField(once)) == once
  {
    if SplitField(text).Some? {
      var items := SplitField(text).value;
      KeptIsClean(Split(text.value, ','));
      KeptOfClean(items);
      RoundTripExactly(items);
    }
  }

  // ---- Webhook event lists ----

  /** _events_to_str. */
  function EventsToStr(events: seq<string>): string {
    Join(Kept(events), ',')
  }

  /** _str_to_events. */
  function StrToEvents(text: string): seq<string> {
    if text == "" then [] else Kept(Split(text, ','))
  }

  /** _event_matches. */
  predicate EventMatches(text: string, event: string) {
    text == "" || event in Kept(Split(text, ','))
  }

  /** A text subscribes to an event exactly when it is empty or some piece between its commas is that event's name, give
      or take outer blanks. */
  lemma EventMatchesExactly(text: string, event: string)
    ensures EventMatches(text, event)
            <==> text == "" || (event != "" && exists piece :: piece in Split(text, ',') && Core(piece, event))
  {
    KeptExactly(Split(text, ','), event);
  }

  /** The worker's test and the API's reading of the stored text (an empty list meaning all events) agree
      on every event exactly when the text is empty or decodes to a non-empty list. */
  lemma SubscriptionAgreesExactly(text: string)
    ensures (forall event :: EventMatches(text, event) <==> StrToEvents(text) == [] || event in StrToEvents(text))
            <==> text == "" || StrToEvents(text) != []
  {
    if text != "" && StrToEvents(text) == [] {
      assert !EventMatches(text, "file.ready");
    }
  }

  /** For the text the service stores, the worker delivers exactly the events asked for (all of them when none
      is left) exactly when no event asked for contains a comma, which the request schema does not rule out. */
  lemma StoredSubscription(events: seq<string>)
    ensures (forall e :: EventMatches(EventsToStr(events), e) <==> Kept(events) == [] || e in Kept(events))
            <==> CommaFree(Kept(events))
    ensures CommaFree(Kept(events)) ==> StrToEvents(EventsToStr(events)) == Kept(events)
  {
    var kept, text := Kept(events), EventsToStr(events);
    KeptIsClean(events);
    JoinEmpty(kept);
    if kept != [] {
      if CommaFree(kept) {
        SplitOfJoin(kept, ',');
        KeptOfClean(kept);
      } else {
        KeptIsClean(Split(text, ','));
        var e :| e in kept && ',' in e;
        assert !EventMatches(text, e);
      }
    }
  }
}
