/** Source-record cards attached to checkpoint summaries: framing, de-duplication and projection. */
module Checkpoint {
  import opened Base

  datatype Content = Text(text: string) | ImageReference(path: Option<string>, mimeType: string, digest: string)

  /** What a shortened tool call keeps: the digest of its arguments and references into them. */
  datatype References = References(retained: string, payloads: string, operations: string)

  datatype Data =
    | UserTurn(content: seq<Content>)
    | SteerTurn(content: seq<Content>)
    | TriggeringAgentInput(author: string, recipient: string, text: string)
    | ToolCall(callId: string, modelCallId: string, toolName: string, arguments: string)
    | ToolCallWithReferences(callId: string, modelCallId: string, toolName: string, digest: string, size: nat, references: References)
    | ToolOutput(callId: string, status: string, digest: string)

  datatype Record = Record(session: string, item: string, data: Data)

  datatype Card = Card(version: nat, records: seq<Record>)

  /** The JSON codec, the argument projection, the digest and the encoded size of one record. */
  datatype Codec = Codec(encode: Card -> Option<string>, decode: string -> Option<Card>,
                         payloads: (string, string) -> Option<References>, digest: string -> string, size: Data -> Option<nat>)

  /** Decoding inverts encoding, and encoded text is one line that opens with a brace. */
  ghost predicate Lawful(codec: Codec) {
    forall card: Card :: codec.encode(card).Some? ==>
      var text := codec.encode(card).value;
      codec.decode(text) == Some(card) && '\n' !in text && text != "" && text[0] == '{'
  }

  // ---- Framing ---------------------------------------------------------------------------------

  const SOURCE_RECORDS_BEGIN := "<<<SOURCE_RECORDS_BEGIN>>>"
  const SOURCE_RECORDS_END := "<<<SOURCE_RECORDS_END>>>"
  const BEGIN := "\n" + SOURCE_RECORDS_BEGIN + "\n"
  const END := "\n" + SOURCE_RECORDS_END
  const NOTE := "\n\nUse read_history to inspect available historical records. Originals not copied into this conversation may be unavailable."

  /** The last place before `n` where `part` occurs. */
  function LastPlace(s: string, part: string, n: nat): Option<nat> {
    if n == 0 then None
    else if OccursAt(s, part, n - 1) then Some(n - 1)
    else LastPlace(s, part, n - 1)
  }

  lemma {:induction false} LastPlaceExactly(s: string, part: string, n: nat)
    ensures LastPlace(s, part, n).None? ==> forall i :: 0 <= i < n ==> !OccursAt(s, part, i)
    ensures LastPlace(s, part, n).Some? ==> LastPlace(s, part, n).value < n && OccursAt(s, part, LastPlace(s, part, n).value)
    ensures LastPlace(s, part, n).Some? ==> forall i :: LastPlace(s, part, n).value < i < n ==> !OccursAt(s, part, i)
  {
    if n > 0 {
      LastPlaceExactly(s, part, n - 1);
    }
  }

  predicate EndsWith(s: string, end: string) {
    |end| <= |s| && s[|s| - |end|..] == end
  }

  /** Body and card of a framed summary. */
  function Split(summary: string, codec: Codec): Option<(string, Card)> {
    var at := LastPlace(summary, BEGIN, |summary| + 1);
    if at.None? || at.value + |BEGIN| > |summary| then None
    else
      var suffix := summary[at.value + |BEGIN|..];
      if !EndsWith(suffix, END) then None
      else
        var card := codec.decode(suffix[..|suffix| - |END|]);
        if card.None? || (card.value.version != 1 && card.value.version != 2) then None
        else Some((summary[..at.value], card.value))
  }

  function Framed(body: string, text: string): string {
    body + BEGIN + text + END
  }

  lemma MarkersDiffer(text: string)
    requires '\n' !in text && text != "" && text[0] == '{'
    ensures forall i :: 0 < i ==> !OccursAt(BEGIN + text + END, BEGIN, i)
  {
    var s := BEGIN + text + END;
    var b := |BEGIN|;
    assert BEGIN[0] == '\n' && BEGIN[1] == '<' && BEGIN[b - 1] == '\n' && END[0] == '\n';
    assert forall k :: 1 <= k < b - 1 ==> BEGIN[k] != '\n';
    forall i | 0 < i
      ensures !OccursAt(s, BEGIN, i)
    {
      assert i + b <= |s| ==> s[i] == s[i..i + b][0] && s[i + 1] == s[i..i + b][1];
      assert 0 < i < b - 1 ==> s[i] == BEGIN[i];
      assert i == b - 1 ==> s[i + 1] == text[0];
      assert b <= i < b + |text| ==> s[i] == text[i - b];
    }
  }

  lemma OccursBehind(body: string, rest: string, part: string, i: nat)
    ensures OccursAt(body + rest, part, |body| + i) <==> OccursAt(rest, part, i)
  {
    if i + |part| <= |rest| {
      assert (body + rest)[|body| + i..|body| + i + |part|] == rest[i..i + |part|];
    }
  }

  /** The frame around an encoded card is found again, whatever the body contains. */
  lemma SplitFramed(body: string, card: Card, codec: Codec)
    requires Lawful(codec) && codec.encode(card).Some? && (card.version == 1 || card.version == 2)
    ensures Split(Framed(body, codec.encode(card).value), codec) == Some((body, card))
  {
    var text := codec.encode(card).value;
    var s := Framed(body, text);
    FrameFound(body, text);
    var suffix := s[|body| + |BEGIN|..];
    assert suffix == text + END;
    assert suffix[|suffix| - |END|..] == END && suffix[..|suffix| - |END|] == text;
    assert s[..|body|] == body;
  }

  /** What counts as a framed card. */
  ghost predicate IsFramed(summary: string, body: string, text: string, card: Card, codec: Codec) {
    && summary == body + BEGIN + text + END
    && codec.decode(text) == Some(card) && (card.version == 1 || card.version == 2)
    && forall i :: |body| < i <= |summary| ==> !OccursAt(summary, BEGIN, i)
  }

  /** A card is found exactly behind the last opening marker, closed at the very end, in one of the two versions. */
  lemma SplitExactly(summary: string, body: string, card: Card, codec: Codec)
    ensures Split(summary, codec) == Some((body, card)) <==> exists text :: IsFramed(summary, body, text, card, codec)
  {
    if Split(summary, codec) == Some((body, card)) {
      var text := SplitIsFramed(summary, body, card, codec);
    }
    if text :| IsFramed(summary, body, text, card, codec) {
      FramedIsSplit(summary, body, text, card, codec);
    }
  }

  lemma SplitIsFramed(summary: string, body: string, card: Card, codec: Codec) returns (text: string)
    requires Split(summary, codec) == Some((body, card))
    ensures IsFramed(summary, body, text, card, codec)
  {
    LastPlaceExactly(summary, BEGIN, |summary| + 1);
    var at := LastPlace(summary, BEGIN, |summary| + 1).value;
    var suffix := summary[at + |BEGIN|..];
    text := suffix[..|suffix| - |END|];
    assert suffix == text + END;
    ThreeParts(summary, at, BEGIN, suffix);
    Associative(body + BEGIN, text, END);
  }

  lemma ThreeParts(s: string, at: nat, part: string, rest: string)
    requires OccursAt(s, part, at) && rest == s[at + |part|..]
    ensures s == s[..at] + part + rest
  {
    assert s == s[..at] + s[at..at + |part|] + s[at + |part|..];
  }

  lemma FramedIsSplit(summary: string, body: string, text: string, card: Card, codec: Codec)
    requires IsFramed(summary, body, text, card, codec)
    ensures Split(summary, codec) == Some((body, card))
  {
    LastPlaceExactly(summary, BEGIN, |summary| + 1);
    assert summary[|body|..|body| + |BEGIN|] == BEGIN;
    assert OccursAt(summary, BEGIN, |body|);
    var suffix := summary[|body| + |BEGIN|..];
    assert suffix == text + END;
    assert suffix[|suffix| - |END|..] == END && suffix[..|suffix| - |END|] == text;
    assert summary[..|body|] == body;
  }

  lemma FrameFound(body: string, text: string)
    requires '\n' !in text && text != "" && text[0] == '{'
    ensures LastPlace(Framed(body, text), BEGIN, |Framed(body, text)| + 1) == Some(|body|)
  {
    var s, rest := Framed(body, text), BEGIN + text + END;
    assert s == body + rest;
    LastPlaceExactly(s, BEGIN, |s| + 1);
    MarkersDiffer(text);
    OccursBehind(body, rest, BEGIN, 0);
    assert rest[0..|BEGIN|] == BEGIN;
    forall i | |body| < i
      ensures !OccursAt(s, BEGIN, i)
    {
      OccursBehind(body, rest, BEGIN, i - |body|);
    }
  }

  lemma SameEnd(s: string, end: string)
    requires end != ""
    ensures EndsWith(s, end) ==> s != "" && Last(s) == Last(end)
  {
    if EndsWith(s, end) {
      assert Last(s) == s[|s| - |end|..][|end| - 1];
    }
  }

  /** Text that does not end like a card carries none. */
  lemma OpenEndIsUnframed(s: string, codec: Codec)
    requires s != "" && Last(s) != '>'
    ensures Split(s, codec).None?
  {
    assert Last(END) == '>';
    var at := LastPlace(s, BEGIN, |s| + 1);
    if at.Some? && at.value + |BEGIN| <= |s| {
      var suffix := s[at.value + |BEGIN|..];
      assert suffix != [] ==> Last(suffix) == Last(s);
      SameEnd(suffix, END);
    }
  }

  lemma NoteIsUnframed(body: string, codec: Codec)
    ensures Split(body + NOTE, codec).None?
  {
    assert Last(body + NOTE) == Last(NOTE) == '.';
    OpenEndIsUnframed(body + NOTE, codec);
  }

  /** Text without the opening marker carries no card. */
  lemma NoMarkerIsUnframed(s: string, codec: Codec)
    requires forall i :: 0 <= i <= |s| ==> !OccursAt(s, SOURCE_RECORDS_BEGIN, i)
    ensures Split(s, codec).None?
  {
    LastPlaceExactly(s, BEGIN, |s| + 1);
    var at := LastPlace(s, BEGIN, |s| + 1);
    if at.Some? {
      var n := |SOURCE_RECORDS_BEGIN|;
      var found := s[at.value..at.value + |BEGIN|];
      assert found[1..n + 1] == SOURCE_RECORDS_BEGIN;
      assert s[at.value + 1..at.value + 1 + n] == found[1..n + 1];
      assert OccursAt(s, SOURCE_RECORDS_BEGIN, at.value + 1);
    }
  }

  // ---- Records ---------------------------------------------------------------------------------

  function KeyOf(record: Record): (string, string) {
    (record.session, record.item)
  }

  /** A tool call with file text is replaced by references when that is shorter. */
  function Referenced(data: Data, codec: Codec): Data {
    if !data.ToolCall? then data
    else
      var references := codec.payloads(data.toolName, data.arguments);
      if references.None? then data
      else
        var candidate := ToolCallWithReferences(data.callId, data.modelCallId, data.toolName, codec.digest(data.arguments),
                                                |data.arguments|, references.value);
        if codec.size(candidate).Some? && codec.size(data).Some? && codec.size(candidate).value < codec.size(data).value
        then candidate else data
  }

  function Normal(record: Record, codec: Codec): Record {
    record.(data := Referenced(record.data, codec))
  }

  /** Normalising twice changes nothing, so old attachments and new calls compare equal. */
  lemma NormalTwice(record: Record, codec: Codec)
    ensures Normal(Normal(record, codec), codec) == Normal(record, codec)
    ensures KeyOf(Normal(record, codec)) == KeyOf(record)
  {
  }

  predicate HasKey(records: seq<Record>, key: (string, string)) {
    exists i :: 0 <= i < |records| && KeyOf(records[i]) == key
  }

  /** The first record of each key, normalised, in order of appearance. */
  function Firsts(records: seq<Record>, codec: Codec): seq<Record> {
    if records == [] then []
    else if HasKey(Front(records), KeyOf(Last(records))) then Firsts(Front(records), codec)
    else Firsts(Front(records), codec) + [Normal(Last(records), codec)]
  }

  /** Records of one key say the same. */
  ghost predicate Agreeing(records: seq<Record>, codec: Codec) {
    forall i, j :: 0 <= i < j < |records| && KeyOf(records[i]) == KeyOf(records[j])
      ==> Normal(records[i], codec) == Normal(records[j], codec)
  }

  predicate DistinctKeys(records: seq<Record>) {
    forall i, j :: 0 <= i < j < |records| ==> KeyOf(records[i]) != KeyOf(records[j])
  }

  /** `at` gives the places of the first occurrences: rising, each new, and together all of them. */
  ghost predicate FirstPlaces(records: seq<Record>, codec: Codec, result: seq<Record>, at: seq<nat>) {
    && |at| == |result|
    && (forall k :: 0 <= k < |at| ==> at[k] < |records| && result[k] == Normal(records[at[k]], codec))
    && (forall k :: 0 <= k < |at| ==> !HasKey(records[..at[k]], KeyOf(records[at[k]])))
    && (forall k, l :: 0 <= k < l < |at| ==> at[k] < at[l])
    && (forall i :: 0 <= i < |records| && !HasKey(records[..i], KeyOf(records[i])) ==> i in at)
  }

  lemma PrefixesSame(records: seq<Record>)
    requires records != []
    ensures forall i :: 0 <= i < |records| ==> Front(records)[..i] == records[..i]
    ensures forall i :: 0 <= i < |records| - 1 ==> Front(records)[i] == records[i]
    ensures Front(records) == records[..|records| - 1]
  {
  }

  lemma RepeatedPlaces(records: seq<Record>, codec: Codec, result: seq<Record>, at: seq<nat>)
    requires records != [] && FirstPlaces(Front(records), codec, result, at)
    requires HasKey(Front(records), KeyOf(Last(records)))
    ensures FirstPlaces(records, codec, result, at)
  {
    PrefixesSame(records);
  }

  lemma NewPlaces(records: seq<Record>, codec: Codec, result: seq<Record>, at: seq<nat>)
    requires records != [] && FirstPlaces(Front(records), codec, result, at)
    requires !HasKey(Front(records), KeyOf(Last(records)))
    ensures FirstPlaces(records, codec, result + [Normal(Last(records), codec)], at + [|records| - 1])
  {
    PrefixesSame(records);
  }

  lemma {:induction false} FirstsExactly(records: seq<Record>, codec: Codec) returns (at: seq<nat>)
    ensures FirstPlaces(records, codec, Firsts(records, codec), at)
  {
    if records == [] {
      at := [];
    } else {
      at := FirstsExactly(Front(records), codec);
      if HasKey(Front(records), KeyOf(Last(records))) {
        RepeatedPlaces(records, codec, Firsts(Front(records), codec), at);
      } else {
        NewPlaces(records, codec, Firsts(Front(records), codec), at);
        at := at + [|records| - 1];
      }
    }
  }

  lemma FirstsDistinct(records: seq<Record>, codec: Codec)
    ensures DistinctKeys(Firsts(records, codec))
  {
    var at := FirstsExactly(records, codec);
    var r := Firsts(records, codec);
    forall k, l | 0 <= k < l < |r|
      ensures KeyOf(r[k]) != KeyOf(r[l])
    {
      assert records[..at[l]][at[k]] == records[at[k]];
    }
  }

  // ---- The appending loop ----------------------------------------------------------------------

  type Seen = map<(string, string), nat>

  ghost predicate Indexed(records: seq<Record>, seen: Seen) {
    && DistinctKeys(records)
    && (forall key :: key in seen ==> seen[key] < |records| && KeyOf(records[seen[key]]) == key)
    && (forall k :: 0 <= k < |records| ==> KeyOf(records[k]) in seen)
  }

  /** Pushes a new record, accepts an equal one, refuses a conflicting one. */
  method AppendRecord(records: seq<Record>, seen: Seen, record: Record, codec: Codec)
    returns (ok: bool, more: seq<Record>, seenMore: Seen)
    requires Indexed(records, seen)
    ensures Indexed(more, seenMore)
    ensures HasKey(records, KeyOf(record)) ==> more == records && (ok <==> Normal(record, codec) in records)
    ensures !HasKey(records, KeyOf(record)) ==> ok && more == records + [Normal(record, codec)]
  {
    var normal := Normal(record, codec);
    var key := KeyOf(normal);
    if key in seen {
      ok, more, seenMore := records[seen[key]] == normal, records, seen;
    } else {
      ok, more, seenMore := true, records + [normal], seen[key := |records|];
    }
  }

  lemma FirstsKeys(records: seq<Record>, codec: Codec, key: (string, string))
    ensures HasKey(Firsts(records, codec), key) <==> HasKey(records, key)
  {
    if records != [] {
      FirstsKeys(Front(records), codec, key);
      var before, m := Firsts(Front(records), codec), |records| - 1;
      assert forall i :: 0 <= i < m ==> Front(records)[i] == records[i];
      if HasKey(Front(records), key) {
        var i :| 0 <= i < |before| && KeyOf(before[i]) == key;
        assert Firsts(records, codec)[i] == before[i];
      }
      if !HasKey(Front(records), KeyOf(Last(records))) {
        assert Firsts(records, codec)[|before|] == Normal(Last(records), codec);
      }
    }
  }

  /** The first record of a key stands among the first occurrences, normalised. */
  lemma FirstStands(records: seq<Record>, f: nat, codec: Codec)
    requires f < |records| && !HasKey(records[..f], KeyOf(records[f]))
    ensures Normal(records[f], codec) in Firsts(records, codec)
  {
    var at := FirstsExactly(records, codec);
    assert f in at;
    var k :| 0 <= k < |at| && at[k] == f;
    assert Firsts(records, codec)[k] == Normal(records[f], codec);
  }

  /** What stands among the first occurrences under a key is its first record. */
  lemma StandsFirst(records: seq<Record>, f: nat, codec: Codec, record: Record)
    requires f < |records| && !HasKey(records[..f], KeyOf(records[f]))
    requires record in Firsts(records, codec) && KeyOf(record) == KeyOf(records[f])
    ensures record == Normal(records[f], codec)
  {
    var at := FirstsExactly(records, codec);
    var l :| 0 <= l < |at| && Firsts(records, codec)[l] == record;
    assert KeyOf(records[at[l]]) == KeyOf(record);
    OneFirst(records, KeyOf(record), f, at[l]);
  }

  /** A repeated record is found among the first occurrences iff it agrees with all before it. */
  lemma RepeatAgrees(records: seq<Record>, n: nat, codec: Codec)
    requires n < |records| && Agreeing(records[..n], codec) && HasKey(records[..n], KeyOf(records[n]))
    ensures Normal(records[n], codec) in Firsts(records[..n], codec) <==> Agreeing(records[..n + 1], codec)
  {
    var before, longer := records[..n], records[..n + 1];
    var f := FirstOf(before, KeyOf(records[n]));
    FirstStands(before, f, codec);
    if Normal(records[n], codec) in Firsts(before, codec) {
      StandsFirst(before, f, codec, Normal(records[n], codec));
      ExtendsAgreement(before, f, codec, records[n]);
      assert longer == before + [records[n]];
    }
    if Agreeing(longer, codec) {
      assert longer[f] == before[f] && longer[n] == records[n];
    }
  }

  /** A record that says what the first of its key says agrees with all of them. */
  lemma ExtendsAgreement(records: seq<Record>, f: nat, codec: Codec, record: Record)
    requires Agreeing(records, codec) && f < |records| && KeyOf(records[f]) == KeyOf(record)
    requires Normal(record, codec) == Normal(records[f], codec)
    ensures Agreeing(records + [record], codec)
  {
    forall i | 0 <= i < |records| && KeyOf(records[i]) == KeyOf(record)
      ensures Normal(records[i], codec) == Normal(record, codec)
    {
      assert i < f || f < i || i == f;
    }
  }

  lemma OneFirst(records: seq<Record>, key: (string, string), i: nat, j: nat)
    requires i < |records| && j < |records| && KeyOf(records[i]) == key == KeyOf(records[j])
    requires !HasKey(records[..i], key) && !HasKey(records[..j], key)
    ensures i == j
  {
  }

  lemma FirstOf(records: seq<Record>, key: (string, string)) returns (f: nat)
    requires HasKey(records, key)
    ensures f < |records| && KeyOf(records[f]) == key && !HasKey(records[..f], key)
    ensures forall i :: 0 <= i < |records| && KeyOf(records[i]) == key ==> f <= i
  {
    f := 0;
    while KeyOf(records[f]) != key
      invariant 0 <= f < |records|
      invariant forall i :: 0 <= i < f ==> KeyOf(records[i]) != key
      invariant HasKey(records, key)
      decreases |records| - f
    {
      f := f + 1;
    }
  }

  lemma FirstsStep(records: seq<Record>, n: nat, codec: Codec)
    requires n < |records|
    ensures Firsts(records[..n + 1], codec)
         == Firsts(records[..n], codec) + if HasKey(records[..n], KeyOf(records[n])) then [] else [Normal(records[n], codec)]
  {
    assert Front(records[..n + 1]) == records[..n] && Last(records[..n + 1]) == records[n];
  }

  lemma NewAgrees(records: seq<Record>, n: nat, codec: Codec)
    requires n < |records| && Agreeing(records[..n], codec) && !HasKey(records[..n], KeyOf(records[n]))
    ensures Agreeing(records[..n + 1], codec)
  {
    assert records[..n + 1] == records[..n] + [records[n]];
    assert forall i :: 0 <= i < n ==> records[..n][i] == records[i];
  }

  /** Appends all records: first occurrences in order, or a conflict. */
  method AppendAll(records: seq<Record>, codec: Codec) returns (merged: Option<seq<Record>>)
    ensures merged.Some? <==> Agreeing(records, codec)
    ensures merged.Some? ==> merged.value == Firsts(records, codec)
  {
    var list: seq<Record>, seen: Seen := [], map[];
    assert records[..0] == [];
    for n := 0 to |records|
      invariant Indexed(list, seen)
      invariant Agreeing(records[..n], codec)
      invariant list == Firsts(records[..n], codec)
    {
      FirstsKeys(records[..n], codec, KeyOf(records[n]));
      FirstsStep(records, n, codec);
      var ok;
      ok, list, seen := AppendRecord(list, seen, records[n], codec);
      if HasKey(records[..n], KeyOf(records[n])) {
        RepeatAgrees(records, n, codec);
      } else {
        NewAgrees(records, n, codec);
      }
      if !ok {
        ConflictStays(records, n + 1, codec);
        return None;
      }
    }
    assert records[..|records|] == records;
    merged := Some(list);
  }

  lemma ConflictStays(records: seq<Record>, n: nat, codec: Codec)
    requires n <= |records| && !Agreeing(records[..n], codec)
    ensures !Agreeing(records, codec)
  {
    var i, j :| 0 <= i < j < n && KeyOf(records[..n][i]) == KeyOf(records[..n][j])
                && Normal(records[..n][i], codec) != Normal(records[..n][j], codec);
    assert records[i] == records[..n][i] && records[j] == records[..n][j];
  }

  // ---- The projection --------------------------------------------------------------------------

  const IsInput: Record -> bool := (record: Record) => record.data.UserTurn? || record.data.SteerTurn? || record.data.TriggeringAgentInput?

  /** The input records a card keeps. */
  function Kept(card: Card, codec: Codec): seq<Record> {
    Filter(Firsts(card.records, codec), IsInput)
  }

  ghost function Projected(summary: string, codec: Codec): string {
    var split := Split(summary, codec);
    if split.None? || !Agreeing(split.value.1.records, codec) then summary
    else
      var body, card := split.value.0, split.value.1;
      var kept := Kept(card, codec);
      if kept == [] then body + NOTE
      else if card.version == 2 && card.records == kept then summary
      else
        var text := codec.encode(Card(2, kept));
        if text.None? then summary else Framed(body, text.value)
  }

  /** Projects a summary; `borrowed` tells that the text was left alone. */
  method ProjectCheckpointSummary(summary: string, codec: Codec) returns (result: string, borrowed: bool)
    ensures result == Projected(summary, codec)
    ensures borrowed ==> result == summary
    ensures !borrowed ==> Split(summary, codec).Some?
  {
    var split := Split(summary, codec);
    if split.None? {
      return summary, true;
    }
    var body, previous := split.value.0, split.value.1;
    var records := AppendAll(previous.records, codec);
    if records.None? {
      return summary, true;
    }
    var kept := Filter(records.value, IsInput);
    if kept == [] {
      return body + NOTE, false;
    }
    if previous.version == 2 && previous.records == kept {
      return summary, true;
    }
    var card := codec.encode(Card(2, kept));
    if card.None? {
      return summary, true;
    }
    result, borrowed := Framed(body, card.value), false;
  }

  lemma {:induction false} FirstsOfDistinct(records: seq<Record>, codec: Codec)
    requires DistinctKeys(records) && forall r :: r in records ==> IsInput(r)
    ensures Firsts(records, codec) == records
  {
    if records != [] {
      FirstsOfDistinct(Front(records), codec);
      assert Last(records) in records && Normal(Last(records), codec) == Last(records);
      assert !HasKey(Front(records), KeyOf(Last(records)));
      assert Front(records) + [Last(records)] == records;
    }
  }

  lemma KeptIsNormal(card: Card, codec: Codec)
    ensures DistinctKeys(Kept(card, codec)) && Firsts(Kept(card, codec), codec) == Kept(card, codec)
    ensures Agreeing(Kept(card, codec), codec) && Filter(Kept(card, codec), IsInput) == Kept(card, codec)
  {
    FirstsDistinct(card.records, codec);
    var at := FilterPlaces(Firsts(card.records, codec), IsInput);
    FirstsOfDistinct(Kept(card, codec), codec);
    FilterAll(Kept(card, codec), IsInput);
  }

  /** Projecting twice is projecting once, on every string. */
  lemma ProjectionIsIdempotent(summary: string, codec: Codec)
    requires Lawful(codec)
    ensures Projected(Projected(summary, codec), codec) == Projected(summary, codec)
  {
    var split := Split(summary, codec);
    if split.Some? && Agreeing(split.value.1.records, codec) {
      var body, card := split.value.0, split.value.1;
      var kept := Kept(card, codec);
      KeptIsNormal(card, codec);
      if kept == [] {
        NoteIsUnframed(body, codec);
      } else if codec.encode(Card(2, kept)).Some? {
        SplitFramed(body, Card(2, kept), codec);
      }
    }
  }

  /** The semantic body: what stands before the card, or everything. */
  function Body(summary: string, codec: Codec): string {
    if Split(summary, codec).Some? then Split(summary, codec).value.0 else summary
  }

  lemma {:induction false} BodyIsPrefix(summary: string, codec: Codec)
    ensures Body(summary, codec) <= summary
  {
    LastPlaceExactly(summary, BEGIN, |summary| + 1);
  }

  /** The body survives as an exact prefix. */
  lemma BodyKept(summary: string, codec: Codec)
    ensures Body(summary, codec) <= Projected(summary, codec)
  {
    BodyIsPrefix(summary, codec);
  }

  /** The card is what rewriting it would give, or cannot be encoded again. */
  ghost predicate Settled(card: Card, codec: Codec) {
    Kept(card, codec) != [] && (card == Card(2, Kept(card, codec)) || codec.encode(Card(2, Kept(card, codec))).None?)
  }

  /** A framed summary keeps its text exactly if its records conflict or its card is settled. */
  lemma UnchangedExactly(summary: string, codec: Codec)
    requires Lawful(codec) && Split(summary, codec).Some?
    ensures Projected(summary, codec) == summary
       <==> !Agreeing(Split(summary, codec).value.1.records, codec) || Settled(Split(summary, codec).value.1, codec)
  {
    var body, card := Split(summary, codec).value.0, Split(summary, codec).value.1;
    var kept := Kept(card, codec);
    if kept == [] {
      NoteIsUnframed(body, codec);
    } else if codec.encode(Card(2, kept)).Some? {
      SplitFramed(body, Card(2, kept), codec);
    }
  }

  /**
   A rewritten card holds the first occurrence of every source key, in order, normalised, and input
   records only, behind the same body.
   */
  lemma RewrittenExactly(summary: string, codec: Codec)
    requires Lawful(codec) && Split(summary, codec).Some?
    requires Projected(summary, codec) != summary
    ensures var card := Split(summary, codec).value.1;
            var kept := Kept(card, codec);
            && DistinctKeys(kept) && (forall r :: r in kept ==> IsInput(r))
            && (kept == [] ==> Projected(summary, codec) == Body(summary, codec) + NOTE)
            && (kept != [] ==> Split(Projected(summary, codec), codec) == Some((Body(summary, codec), Card(2, kept))))
  {
    var card := Split(summary, codec).value.1;
    KeptIsNormal(card, codec);
    if Kept(card, codec) != [] {
      SplitFramed(Body(summary, codec), Card(2, Kept(card, codec)), codec);
    }
  }

  /** `at` gives the places of the kept records in the old card: rising, first of their key, all inputs. */
  lemma KeptInOrder(card: Card, codec: Codec) returns (at: seq<nat>)
    ensures |at| == |Kept(card, codec)|
    ensures forall k :: 0 <= k < |at| ==> at[k] < |card.records| && Kept(card, codec)[k] == Normal(card.records[at[k]], codec)
                                          && !HasKey(card.records[..at[k]], KeyOf(card.records[at[k]]))
    ensures forall k, l :: 0 <= k < l < |at| ==> at[k] < at[l]
  {
    var firsts := FirstsExactly(card.records, codec);
    var chosen := FilterPlaces(Firsts(card.records, codec), IsInput);
    at := seq(|chosen|, k requires 0 <= k < |chosen| => firsts[chosen[k]]);
  }

  /** Every input record of the old card is kept, under its key. */
  lemma NoInputLost(card: Card, codec: Codec, i: nat)
    requires i < |card.records| && IsInput(card.records[i]) && Agreeing(card.records, codec)
    ensures card.records[i] in Kept(card, codec)
  {
    var key := KeyOf(card.records[i]);
    var f := FirstOf(card.records, key);
    var at := FirstsExactly(card.records, codec);
    assert f in at;
    var k :| 0 <= k < |at| && at[k] == f;
    assert Firsts(card.records, codec)[k] == Normal(card.records[f], codec);
    assert f < i ==> Normal(card.records[f], codec) == Normal(card.records[i], codec);
    assert Normal(card.records[i], codec) == card.records[i];
  }

  // ---- Read back from the text -----------------------------------------------------------------

  /** One source: the same item of the same session. */
  predicate SameSource(a: Record, b: Record) {
    a.session == b.session && a.item == b.item
  }

  /** Records of one source say the same once tool calls are shortened. */
  ghost predicate WithoutConflict(records: seq<Record>, codec: Codec) {
    forall a, b :: a in records && b in records && SameSource(a, b) ==> Normal(a, codec) == Normal(b, codec)
  }

  lemma AgreeingExactly(records: seq<Record>, codec: Codec)
    ensures Agreeing(records, codec) <==> WithoutConflict(records, codec)
  {
    if Agreeing(records, codec) {
      forall a, b | a in records && b in records && SameSource(a, b)
        ensures Normal(a, codec) == Normal(b, codec)
      {
        var i :| 0 <= i < |records| && records[i] == a;
        var j :| 0 <= j < |records| && records[j] == b;
        assert i < j ==> KeyOf(records[i]) == KeyOf(records[j]);
      }
    }
  }

  /** The card of a summary, or no records if it has none. */
  function RecordsOf(summary: string, codec: Codec): seq<Record> {
    var split := Split(summary, codec);
    if split.None? then [] else split.value.1.records
  }

  /** What an input of a user, of a steering user, or of a triggering agent is. */
  predicate IsAttributedInput(data: Data) {
    match data
    case UserTurn(_) => true
    case SteerTurn(_) => true
    case TriggeringAgentInput(_, _, _) => true
    case ToolCall(_, _, _, _) => false
    case ToolCallWithReferences(_, _, _, _, _, _) => false
    case ToolOutput(_, _, _) => false
  }

  lemma KeptByKind(card: Card, codec: Codec, record: Record)
    requires Agreeing(card.records, codec) && record in card.records
    ensures (exists kept :: kept in Kept(card, codec) && SameSource(kept, record)) <==> IsAttributedInput(record.data)
    ensures IsAttributedInput(record.data) ==> record in Kept(card, codec)
  {
    var i :| 0 <= i < |card.records| && card.records[i] == record;
    if IsAttributedInput(record.data) {
      NoInputLost(card, codec, i);
    }
    if kept :| kept in Kept(card, codec) && SameSource(kept, record) {
      FromCard(card, codec, kept, i);
    }
  }

  /** A kept record is the shortened form of every record of its source. */
  lemma FromCard(card: Card, codec: Codec, kept: Record, i: nat)
    requires Agreeing(card.records, codec) && kept in Kept(card, codec)
    requires i < |card.records| && SameSource(kept, card.records[i])
    ensures kept == Normal(card.records[i], codec)
  {
    var at := KeptInOrder(card, codec);
    var k :| 0 <= k < |Kept(card, codec)| && Kept(card, codec)[k] == kept;
    assert kept == Normal(card.records[at[k]], codec);
    assert KeyOf(card.records[at[k]]) == KeyOf(card.records[i]);
  }

  /**
   Read back from the projected text, by kind of record: of a card without conflict that can be encoded
   again, the inputs of users, steering users and triggering agents are there, word for word, and tool
   calls and outputs are gone.
   */
  lemma ReadBackByKind(summary: string, codec: Codec, record: Record)
    requires Lawful(codec) && Split(summary, codec).Some? && WithoutConflict(RecordsOf(summary, codec), codec)
    requires codec.encode(Card(2, Kept(Split(summary, codec).value.1, codec))).Some?
    requires record in RecordsOf(summary, codec)
    ensures var back := RecordsOf(Projected(summary, codec), codec);
            && ((exists kept :: kept in back && SameSource(kept, record)) <==> IsAttributedInput(record.data))
            && (IsAttributedInput(record.data) ==> record in back)
  {
    var body, card := Split(summary, codec).value.0, Split(summary, codec).value.1;
    AgreeingExactly(card.records, codec);
    KeptByKind(card, codec, record);
    KeptIsNormal(card, codec);
    if Kept(card, codec) == [] {
      NoteIsUnframed(body, codec);
    } else {
      SplitFramed(body, Card(2, Kept(card, codec)), codec);
    }
  }

  /** A tool call is shortened exactly if references to its file text exist and take less room. */
  lemma ShortenedExactly(record: Record, codec: Codec, short: Data)
    requires record.data.ToolCall? ==>
               codec.payloads(record.data.toolName, record.data.arguments).Some? ==>
                 short == ToolCallWithReferences(record.data.callId, record.data.modelCallId, record.data.toolName,
                                                 codec.digest(record.data.arguments), |record.data.arguments|,
                                                 codec.payloads(record.data.toolName, record.data.arguments).value)
    ensures Normal(record, codec).session == record.session && Normal(record, codec).item == record.item
    ensures Normal(record, codec).data
         == if record.data.ToolCall? && codec.payloads(record.data.toolName, record.data.arguments).Some?
               && codec.size(short).Some? && codec.size(record.data).Some? && codec.size(short).value < codec.size(record.data).value
            then short else record.data
  {
  }

  /** How a rewritten summary is spelled. */
  lemma MarkersSpelled()
    ensures BEGIN == "\n<<<SOURCE_RECORDS_BEGIN>>>\n"
    ensures END == "\n<<<SOURCE_RECORDS_END>>>"
  {
  }

  lemma RewrittenText(summary: string, codec: Codec)
    requires Split(summary, codec).Some? && Projected(summary, codec) != summary
    ensures var body, kept := Split(summary, codec).value.0, Kept(Split(summary, codec).value.1, codec);
            if kept == [] then Projected(summary, codec) == body + NOTE
            else codec.encode(Card(2, kept)).Some? && Projected(summary, codec) == body + BEGIN + codec.encode(Card(2, kept)).value + END
  {
  }
}
