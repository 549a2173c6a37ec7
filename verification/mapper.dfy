/**
 * The mapper of mqtt2influx: gatherInfluxData turns one regular-expression
 * match of an MQTT topic, together with the message payload, into the tag
 * map and the field map of an InfluxDB point.
 *
 * The regular-expression engine is not modelled. A match is given as
 * `Option<seq<Group>>`: `None` when the pattern does not match the topic,
 * otherwise the capture groups 1, 2, ... in order, each with its name
 * (`""` for an unnamed group) and the text it captured. Whether a payload
 * parses as a 64-bit float is the parameter `numeric`.
 */
module Mapper {
  import opened Wrappers

  /** One capture group of a match: its name ("" when unnamed) and its text. */
  datatype Group = Group(name: string, text: string)

  /** A field value: the raw payload, or the boolean of the synthetic event field. */
  datatype Value = Raw(payload: string) | Flag(b: bool)

  type Tags = map<string, string>
  type Fields = map<string, Value>

  /** The two maps gatherInfluxData returns when the pattern matched. */
  datatype Data = Data(tags: Tags, fields: Fields)

  /** Name of the field emitted for a payload that is neither numeric nor boolean. */
  const EventFieldName: string := "occurred"

  /** strconv.ParseBool: the boolean a string spells, or None for its syntax error. */
  function ParseBool(s: string): Option<bool>
  {
    if s in {"1", "t", "T", "TRUE", "true", "True"} then Some(true)
    else if s in {"0", "f", "F", "FALSE", "false", "False"} then Some(false)
    else None
  }

  /** isBoolean: ParseBool reports no error. */
  predicate IsBoolean(s: string)
    ensures IsBoolean(s) <==> s in {"1", "t", "T", "TRUE", "true", "True", "0", "f", "F", "FALSE", "false", "False"}
  {
    ParseBool(s).Some?
  }

  /**
   * The last element of strings.Split(topic, "/"): the text after the last
   * '/', or the whole topic when it holds no '/'.
   */
  function LastSegment(topic: string): (seg: string)
    ensures '/' !in seg
    ensures |seg| <= |topic| && topic[|topic| - |seg|..] == seg
    ensures |seg| < |topic| ==> topic[|topic| - |seg| - 1] == '/'
  {
    if topic == [] || topic[|topic| - 1] == '/' then []
    else LastSegment(topic[..|topic| - 1]) + [topic[|topic| - 1]]
  }

  /** Whatever precedes the last '/', the segment after it is the last segment. */
  lemma {:induction false} LastSegmentAfterSlash(prefix: string, seg: string)
    requires '/' !in seg
    ensures LastSegment(prefix + "/" + seg) == seg
  {
    var topic := prefix + "/" + seg;
    if seg != [] {
      assert topic[..|topic| - 1] == prefix + "/" + seg[..|seg| - 1];
      LastSegmentAfterSlash(prefix, seg[..|seg| - 1]);
      assert seg == seg[..|seg| - 1] + [seg[|seg| - 1]];
    }
  }

  /**
   * The field name the group loop accumulates: the captures of the unnamed
   * groups in group order, with a '.' put in front of a capture only when
   * the name built so far is non-empty.
   */
  function JoinUnnamed(gs: seq<Group>): string
  {
    if gs == [] then ""
    else
      var acc := JoinUnnamed(gs[..|gs| - 1]);
      var g := gs[|gs| - 1];
      if g.name != "" then acc
      else if acc != "" then acc + "." + g.text
      else g.text
  }

  /** The tags the group loop collects: each named group's capture under its name. */
  function NamedTags(gs: seq<Group>): Tags
  {
    if gs == [] then map[]
    else
      var tags := NamedTags(gs[..|gs| - 1]);
      var g := gs[|gs| - 1];
      if g.name == "" then tags else tags[g.name := g.text]
  }

  /** The field name: the joined unnamed captures, or the last topic segment when that is empty. */
  function FieldName(gs: seq<Group>, topic: string): string
  {
    var joined := JoinUnnamed(gs);
    if joined == "" then LastSegment(topic) else joined
  }

  /** What gatherInfluxData returns, as a function of the match, the topic and the payload. */
  function Gather(m: Option<seq<Group>>, topic: string, payload: string, numeric: string -> bool): Option<Data>
  {
    match m
    case None => None
    case Some(gs) =>
      var name := FieldName(gs, topic);
      if numeric(payload) || IsBoolean(payload) then
        Some(Data(NamedTags(gs), map[name := Raw(payload)]))
      else
        Some(Data(NamedTags(gs)[name := payload], map[EventFieldName := Flag(true)]))
  }

  /**
   * gatherInfluxData: walks the capture groups once, building the tags and
   * the field name, then classifies the payload.
   */
  method GatherInfluxData(m: Option<seq<Group>>, topic: string, payload: string, numeric: string -> bool)
    returns (r: Option<Data>)
    ensures r.None? <==> m.None?
    ensures r == Gather(m, topic, payload, numeric)
  {
    if m.None? {
      return None;
    }
    var gs := m.value;
    var tags: Tags := map[];
    var fieldName := "";
    var i := 0;
    while i < |gs|
      invariant 0 <= i <= |gs|
      invariant tags == NamedTags(gs[..i])
      invariant fieldName == JoinUnnamed(gs[..i])
    {
      var g := gs[i];
      assert gs[..i + 1] == gs[..i] + [g];
      if g.name == "" {
        if fieldName != "" {
          fieldName := fieldName + ".";
        }
        fieldName := fieldName + g.text;
      } else {
        tags := tags[g.name := g.text];
      }
      i := i + 1;
    }
    assert gs[..|gs|] == gs;
    assert tags == NamedTags(gs) && fieldName == JoinUnnamed(gs);
    if fieldName == "" {
      fieldName := LastSegment(topic);
    }
    assert fieldName == FieldName(gs, topic);
    var fields: Fields;
    if numeric(payload) || IsBoolean(payload) {
      fields := map[fieldName := Raw(payload)];
    } else {
      tags := tags[fieldName := payload];
      fields := map[EventFieldName := Flag(true)];
    }
    r := Some(Data(tags, fields));
  }

  // ---------------------------------------------------------------------
  // Independent descriptions of the field name and the tags

  /** The captures of the unnamed groups, in group order. */
  function UnnamedTexts(gs: seq<Group>): seq<string>
  {
    if gs == [] then []
    else (if gs[0].name == "" then [gs[0].text] else []) + UnnamedTexts(gs[1..])
  }

  /** The parts joined with '.' between each two of them (strings.Join). */
  function DotJoin(parts: seq<string>): string
  {
    if parts == [] then ""
    else if |parts| == 1 then parts[0]
    else parts[0] + "." + DotJoin(parts[1..])
  }

  lemma {:induction false} UnnamedTextsSnoc(gs: seq<Group>, g: Group)
    ensures UnnamedTexts(gs + [g]) == UnnamedTexts(gs) + (if g.name == "" then [g.text] else [])
  {
    if gs != [] {
      assert (gs + [g])[1..] == gs[1..] + [g];
      UnnamedTextsSnoc(gs[1..], g);
    }
  }

  lemma {:induction false} DotJoinSnoc(parts: seq<string>, t: string)
    ensures DotJoin(parts + [t]) == if parts == [] then t else DotJoin(parts) + "." + t
  {
    if |parts| > 1 {
      assert (parts + [t])[1..] == parts[1..] + [t];
      DotJoinSnoc(parts[1..], t);
    } else if |parts| == 1 {
      assert (parts + [t])[1..] == [t];
    }
  }

  /** The accumulated field name is empty exactly when every unnamed group captured "". */
  lemma {:induction false} JoinUnnamedEmpty(gs: seq<Group>)
    ensures JoinUnnamed(gs) == "" <==> forall i :: 0 <= i < |gs| && gs[i].name == "" ==> gs[i].text == ""
  {
    if gs != [] {
      var init := gs[..|gs| - 1];
      JoinUnnamedEmpty(init);
      assert forall i :: 0 <= i < |init| ==> init[i] == gs[i];
    }
  }

  /**
   * When no unnamed group captured "", the field name is the unnamed
   * captures joined with '.', whatever named groups sit between them.
   */
  lemma {:induction false} JoinUnnamedIsDotJoin(gs: seq<Group>)
    requires forall i :: 0 <= i < |gs| && gs[i].name == "" ==> gs[i].text != ""
    ensures JoinUnnamed(gs) == DotJoin(UnnamedTexts(gs))
    ensures JoinUnnamed(gs) == "" <==> UnnamedTexts(gs) == []
  {
    if gs != [] {
      var init, g := gs[..|gs| - 1], gs[|gs| - 1];
      assert gs == init + [g];
      assert forall i :: 0 <= i < |init| ==> init[i] == gs[i];
      JoinUnnamedIsDotJoin(init);
      UnnamedTextsSnoc(init, g);
      if g.name == "" {
        assert g.text != "";
        DotJoinSnoc(UnnamedTexts(init), g.text);
        assert UnnamedTexts(gs) == UnnamedTexts(init) + [g.text];
      } else {
        assert UnnamedTexts(gs) == UnnamedTexts(init);
      }
    }
  }

  /**
   * The unnamed captures with the leading empty ones removed: while the
   * name built so far is empty, an empty capture adds nothing, not even a '.'.
   */
  function DropLeadingEmpty(parts: seq<string>): (r: seq<string>)
    ensures r == [] || r[0] != ""
    ensures |r| <= |parts| && r == parts[|parts| - |r|..]
  {
    if parts == [] then []
    else if parts[0] == "" then DropLeadingEmpty(parts[1..])
    else parts
  }

  lemma {:induction false} DropLeadingEmptySnoc(parts: seq<string>, t: string)
    ensures DropLeadingEmpty(parts + [t])
         == if DropLeadingEmpty(parts) == [] then (if t == "" then [] else [t])
            else DropLeadingEmpty(parts) + [t]
  {
    if parts != [] {
      assert (parts + [t])[1..] == parts[1..] + [t];
      DropLeadingEmptySnoc(parts[1..], t);
    }
  }

  /**
   * For every match, the field name is the unnamed captures in group order,
   * leading empty ones dropped, joined with '.'. So captures "a", "" give
   * "a." and "", "b" give "b".
   */
  lemma {:induction false} JoinUnnamedAll(gs: seq<Group>)
    ensures JoinUnnamed(gs) == DotJoin(DropLeadingEmpty(UnnamedTexts(gs)))
  {
    if gs != [] {
      var init, g := gs[..|gs| - 1], gs[|gs| - 1];
      assert gs == init + [g];
      JoinUnnamedAll(init);
      UnnamedTextsSnoc(init, g);
      var d := DropLeadingEmpty(UnnamedTexts(init));
      if g.name == "" {
        assert UnnamedTexts(gs) == UnnamedTexts(init) + [g.text];
        DropLeadingEmptySnoc(UnnamedTexts(init), g.text);
        if d != [] {
          assert DotJoin(d) != "" by {
            assert |d| == 1 || DotJoin(d) == d[0] + "." + DotJoin(d[1..]);
          }
          DotJoinSnoc(d, g.text);
        }
      } else {
        assert UnnamedTexts(gs) == UnnamedTexts(init);
      }
    }
  }

  /** A key is a tag of the group loop exactly when some named group has that name. */
  lemma {:induction false} NamedTagsKeys(gs: seq<Group>, k: string)
    ensures k in NamedTags(gs) <==> k != "" && exists i :: 0 <= i < |gs| && gs[i].name == k
  {
    if gs != [] {
      var init := gs[..|gs| - 1];
      NamedTagsKeys(init, k);
      assert forall i :: 0 <= i < |init| ==> init[i] == gs[i];
      if gs[|gs| - 1].name == k && k != "" {
        assert k in NamedTags(gs);
      }
    }
  }

  /** A named group's capture is the tag under its name, unless a later group has the same name. */
  lemma {:induction false} NamedTagsLastWins(gs: seq<Group>, i: nat)
    requires i < |gs| && gs[i].name != ""
    requires forall j :: i < j < |gs| ==> gs[j].name != gs[i].name
    ensures gs[i].name in NamedTags(gs) && NamedTags(gs)[gs[i].name] == gs[i].text
  {
    if i < |gs| - 1 {
      var init := gs[..|gs| - 1];
      NamedTagsLastWins(init, i);
    }
  }

  // ---------------------------------------------------------------------
  // The two payload classes

  /**
   * A numeric or boolean payload: the tags are exactly the named groups and
   * the only field is the payload under the field name.
   */
  lemma MeasurementValue(gs: seq<Group>, topic: string, payload: string, numeric: string -> bool)
    requires numeric(payload) || IsBoolean(payload)
    ensures var r := Gather(Some(gs), topic, payload, numeric);
      && r.Some?
      && r.value.fields == map[FieldName(gs, topic) := Raw(payload)]
      && (forall k :: k in r.value.tags <==> k != "" && exists i :: 0 <= i < |gs| && gs[i].name == k)
      && (forall i :: 0 <= i < |gs| && gs[i].name != "" && (forall j :: i < j < |gs| ==> gs[j].name != gs[i].name)
            ==> r.value.tags[gs[i].name] == gs[i].text)
  {
    forall k {
      NamedTagsKeys(gs, k);
    }
    forall i | 0 <= i < |gs| && gs[i].name != "" && (forall j :: i < j < |gs| ==> gs[j].name != gs[i].name) {
      NamedTagsLastWins(gs, i);
    }
  }

  /**
   * Any other payload: the payload becomes the tag under the field name
   * (replacing a named group of that name), the other tags are the named
   * groups, and the only field is occurred = true.
   */
  lemma EventMarker(gs: seq<Group>, topic: string, payload: string, numeric: string -> bool)
    requires !numeric(payload) && !IsBoolean(payload)
    ensures var r := Gather(Some(gs), topic, payload, numeric);
      var name := FieldName(gs, topic);
      && r.Some?
      && r.value.fields == map[EventFieldName := Flag(true)]
      && name in r.value.tags && r.value.tags[name] == payload
      && (forall k :: k != name ==> (k in r.value.tags <==> k != "" && exists i :: 0 <= i < |gs| && gs[i].name == k))
      && (forall i :: 0 <= i < |gs| && gs[i].name != name && gs[i].name != ""
            && (forall j :: i < j < |gs| ==> gs[j].name != gs[i].name)
            ==> r.value.tags[gs[i].name] == gs[i].text)
  {
    forall k {
      NamedTagsKeys(gs, k);
    }
    forall i | 0 <= i < |gs| && gs[i].name != "" && (forall j :: i < j < |gs| ==> gs[j].name != gs[i].name) {
      NamedTagsLastWins(gs, i);
    }
  }

  /** With no unnamed group capturing text, the field name is the last topic segment. */
  lemma FieldNameFallback(gs: seq<Group>, topic: string)
    requires forall i :: 0 <= i < |gs| && gs[i].name == "" ==> gs[i].text == ""
    ensures FieldName(gs, topic) == LastSegment(topic)
  {
    JoinUnnamedEmpty(gs);
  }

  /** With some unnamed group capturing text, the field name is the accumulated name. */
  lemma FieldNameFromGroups(gs: seq<Group>, topic: string, i: nat)
    requires i < |gs| && gs[i].name == "" && gs[i].text != ""
    ensures FieldName(gs, topic) == JoinUnnamed(gs) != ""
  {
    JoinUnnamedEmpty(gs);
  }
}
