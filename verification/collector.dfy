/**
 * The rule loop of syncCallback and the point buffer that the ticker loop
 * of main flushes with writePoints.
 *
 * A record stands for a client.Point: the measurement of the rule that
 * matched, with the tags and fields the mapper produced. Matching a rule's
 * pattern against a topic is the parameter `matcher`; the outcome of the
 * InfluxDB batch write is the parameter `sinkOk`.
 */
module Collector {
  import opened Wrappers
  import opened Mapper

  /** One entry of the SYNC configuration list. */
  datatype Rule = Rule(pattern: string, measurement: string)

  /** A point waiting to be written. */
  datatype Record = Record(measurement: string, tags: Tags, fields: Fields)

  /** The point syncCallback builds for a message: from the first rule whose mapper result is not nil. */
  function FirstMatch(rules: seq<Rule>, matcher: (string, string) -> Option<seq<Group>>,
                      numeric: string -> bool, topic: string, payload: string): Option<Record>
  {
    if rules == [] then None
    else
      match Gather(matcher(rules[0].pattern, topic), topic, payload, numeric)
      case Some(d) => Some(Record(rules[0].measurement, d.tags, d.fields))
      case None => FirstMatch(rules[1..], matcher, numeric, topic, payload)
  }

  /** No point is built exactly when no rule's pattern matches the topic. */
  lemma {:induction false} FirstMatchNone(rules: seq<Rule>, matcher: (string, string) -> Option<seq<Group>>,
                                          numeric: string -> bool, topic: string, payload: string)
    ensures FirstMatch(rules, matcher, numeric, topic, payload).None?
        <==> forall i :: 0 <= i < |rules| ==> matcher(rules[i].pattern, topic).None?
  {
    if rules != [] {
      FirstMatchNone(rules[1..], matcher, numeric, topic, payload);
      assert forall i :: 1 <= i < |rules| ==> rules[1..][i - 1] == rules[i];
    }
  }

  /**
   * First match wins: when rule i is the first whose pattern matches, the
   * point comes from rule i, with its measurement and the mapper's maps.
   */
  lemma {:induction false} FirstMatchWins(rules: seq<Rule>, matcher: (string, string) -> Option<seq<Group>>,
                                          numeric: string -> bool, topic: string, payload: string, i: nat)
    requires i < |rules| && matcher(rules[i].pattern, topic).Some?
    requires forall j :: 0 <= j < i ==> matcher(rules[j].pattern, topic).None?
    ensures var d := Gather(matcher(rules[i].pattern, topic), topic, payload, numeric);
      && d.Some?
      && FirstMatch(rules, matcher, numeric, topic, payload)
         == Some(Record(rules[i].measurement, d.value.tags, d.value.fields))
  {
    if i > 0 {
      assert forall j :: 0 <= j < i - 1 ==> rules[1..][j] == rules[j + 1];
      FirstMatchWins(rules[1..], matcher, numeric, topic, payload, i - 1);
    }
  }

  /** The records FirstMatch contributes to the buffer: none or one. */
  function Emitted(r: Option<Record>): seq<Record>
  {
    match r
    case Some(rec) => [rec]
    case None => []
  }

  /**
   * The process-wide pointCollection slice. Beside the buffer itself two
   * ghost sequences record every point ever appended and every point ever
   * written; Valid says that what was written followed by what is still
   * buffered is everything appended, in order: no point is lost or
   * written twice.
   */
  class Batcher {
    var points: seq<Record>
    ghost var accepted: seq<Record>
    ghost var delivered: seq<Record>

    ghost predicate Valid()
      reads this
    {
      delivered + points == accepted
    }

    constructor ()
      ensures Valid()
      ensures points == [] && accepted == [] && delivered == []
    {
      points := [];
      accepted := [];
      delivered := [];
    }

    /** append(pointCollection, point). */
    method Append(r: Record)
      requires Valid()
      modifies this
      ensures Valid()
      ensures points == old(points) + [r]
      ensures accepted == old(accepted) + [r] && delivered == old(delivered)
    {
      points := points + [r];
      accepted := accepted + [r];
    }

    /**
     * writePoints: the whole buffer goes to the sink as one batch; on
     * success the buffer is emptied, on failure it is kept for the next try.
     */
    method WritePoints(sinkOk: bool) returns (batch: seq<Record>)
      requires Valid()
      modifies this
      ensures Valid()
      ensures batch == old(points)
      ensures sinkOk ==> points == [] && delivered == old(delivered) + batch
      ensures !sinkOk ==> points == old(points) && delivered == old(delivered)
      ensures accepted == old(accepted)
    {
      batch := points;
      if sinkOk {
        delivered := delivered + points;
        points := [];
      }
    }

    /**
     * One pass of main's ticker loop: writePoints is called only when the
     * buffer is non-empty. The result is the batch handed to the sink, or
     * None when nothing was written.
     */
    method FlushTick(sinkOk: bool) returns (batch: Option<seq<Record>>)
      requires Valid()
      modifies this
      ensures Valid()
      ensures batch.None? <==> old(points) == []
      ensures batch.Some? ==> batch.value == old(points)
      ensures points == if sinkOk then [] else old(points)
      ensures delivered == old(delivered) + (if sinkOk then old(points) else [])
      ensures accepted == old(accepted)
    {
      if |points| > 0 {
        var written := WritePoints(sinkOk);
        batch := Some(written);
      } else {
        batch := None;
      }
    }

    /**
     * syncCallback: tries the rules in order and appends the point of the
     * first one whose mapper result is not nil, then stops.
     */
    method SyncCallback(rules: seq<Rule>, matcher: (string, string) -> Option<seq<Group>>,
                        numeric: string -> bool, topic: string, payload: string)
      requires Valid()
      modifies this
      ensures Valid()
      ensures points == old(points) + Emitted(FirstMatch(rules, matcher, numeric, topic, payload))
      ensures accepted == old(accepted) + Emitted(FirstMatch(rules, matcher, numeric, topic, payload))
      ensures delivered == old(delivered)
    {
      var i := 0;
      while i < |rules|
        invariant 0 <= i <= |rules|
        invariant Valid()
        invariant points == old(points) && accepted == old(accepted) && delivered == old(delivered)
        invariant FirstMatch(rules, matcher, numeric, topic, payload)
               == FirstMatch(rules[i..], matcher, numeric, topic, payload)
      {
        var rule := rules[i];
        var data := GatherInfluxData(matcher(rule.pattern, topic), topic, payload, numeric);
        if data.None? {
          assert rules[i..][1..] == rules[i + 1..];
          i := i + 1;
          continue;
        }
        Append(Record(rule.measurement, data.value.tags, data.value.fields));
        break;
      }
    }
  }
}
