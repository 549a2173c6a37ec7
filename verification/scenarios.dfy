/**
 * Concrete cases of gatherInfluxData from the repository's test table,
 * stated on the specification function Gather. `numeric` says which
 * payloads parse as floats.
 */
module Scenarios {
  import opened Wrappers
  import opened Mapper

  /**
   * A pattern that does not match gives neither tags nor fields. This mirrors
   * the first row of the test table; under the abstract match it is the
   * no-match case of Gather.
   */
  lemma NoMatchGivesNothing(numeric: string -> bool)
    ensures Gather(None, "/hi/there", "1.3", numeric) == None
  {
  }

  /** `/foo/\w+` on /foo/bar with 1.3: no groups, so the field is the last segment. */
  lemma NoGroupsUsesLastSegment(numeric: string -> bool)
    requires numeric("1.3")
    ensures Gather(Some([]), "/foo/bar", "1.3", numeric) == Some(Data(map[], map["bar" := Raw("1.3")]))
  {
    assert "/foo/bar" == "/foo" + "/" + "bar";
    LastSegmentAfterSlash("/foo", "bar");
  }

  /** `/foo/(\w+)/(\w+)` on /foo/bazz/muh: two unnamed groups joined with '.'. */
  lemma UnnamedGroupsJoined(numeric: string -> bool)
    requires numeric("1.4")
    ensures Gather(Some([Group("", "bazz"), Group("", "muh")]), "/foo/bazz/muh", "1.4", numeric)
         == Some(Data(map[], map["bazz.muh" := Raw("1.4")]))
  {
    var gs := [Group("", "bazz"), Group("", "muh")];
    assert gs[..1] == [Group("", "bazz")] && gs[..1][..0] == [];
    assert JoinUnnamed(gs[..1]) == "bazz";
    assert JoinUnnamed(gs) == "bazz" + "." + "muh" == "bazz.muh";
    assert NamedTags(gs) == map[];
  }

  /** `/foo/(?P<YOLO>\w+)/(?P<ALF>\w+)/\w+` on /foo/bar/2/muh: named groups are tags. */
  lemma NamedGroupsAreTags(numeric: string -> bool)
    requires numeric("1.4")
    ensures Gather(Some([Group("YOLO", "bar"), Group("ALF", "2")]), "/foo/bar/2/muh", "1.4", numeric)
         == Some(Data(map["YOLO" := "bar", "ALF" := "2"], map["muh" := Raw("1.4")]))
  {
    var gs := [Group("YOLO", "bar"), Group("ALF", "2")];
    assert gs[..1] == [Group("YOLO", "bar")] && gs[..1][..0] == [];
    assert JoinUnnamed(gs[..1]) == "";
    assert JoinUnnamed(gs) == "";
    assert NamedTags(gs[..1]) == map["YOLO" := "bar"];
    assert NamedTags(gs) == map["YOLO" := "bar", "ALF" := "2"];
    assert "/foo/bar/2/muh" == "/foo/bar/2" + "/" + "muh";
    LastSegmentAfterSlash("/foo/bar/2", "muh");
  }

  /** A boolean payload is stored as a value, like a numeric one. */
  lemma BooleanPayloadIsValue(numeric: string -> bool)
    ensures Gather(Some([Group("YOLO", "bar"), Group("ALF", "2"), Group("", "muh"), Group("", "goo")]),
                   "/foo/bar/2/muh/goo", "true", numeric)
         == Some(Data(map["YOLO" := "bar", "ALF" := "2"], map["muh.goo" := Raw("true")]))
  {
    var gs := [Group("YOLO", "bar"), Group("ALF", "2"), Group("", "muh"), Group("", "goo")];
    assert gs[..3] == [Group("YOLO", "bar"), Group("ALF", "2"), Group("", "muh")];
    assert gs[..3][..2] == [Group("YOLO", "bar"), Group("ALF", "2")];
    assert gs[..3][..2][..1] == [Group("YOLO", "bar")] && gs[..3][..2][..1][..0] == [];
    assert JoinUnnamed(gs[..3][..2][..1]) == "";
    assert JoinUnnamed(gs[..3][..2]) == "";
    assert JoinUnnamed(gs[..3]) == "muh";
    assert JoinUnnamed(gs) == "muh" + "." + "goo" == "muh.goo";
    assert NamedTags(gs[..3][..2][..1]) == map["YOLO" := "bar"];
    assert NamedTags(gs[..3][..2]) == map["YOLO" := "bar", "ALF" := "2"];
    assert NamedTags(gs[..3]) == map["YOLO" := "bar", "ALF" := "2"];
    assert NamedTags(gs) == map["YOLO" := "bar", "ALF" := "2"];
  }

  /** `/foo/\w+` on /foo/bar with wat: the payload becomes a tag and occurred = true. */
  lemma TextPayloadIsEvent(numeric: string -> bool)
    requires !numeric("wat")
    ensures Gather(Some([]), "/foo/bar", "wat", numeric)
         == Some(Data(map["bar" := "wat"], map[EventFieldName := Flag(true)]))
  {
    assert "/foo/bar" == "/foo" + "/" + "bar";
    LastSegmentAfterSlash("/foo", "bar");
  }

  /** `/(foo)/(?P<lol>\d)/(\w+)` on /foo/1/bar with wat: the joined name becomes the event tag. */
  lemma EventTagBesideNamedTag(numeric: string -> bool)
    requires !numeric("wat")
    ensures Gather(Some([Group("", "foo"), Group("lol", "1"), Group("", "bar")]), "/foo/1/bar", "wat", numeric)
         == Some(Data(map["lol" := "1", "foo.bar" := "wat"], map[EventFieldName := Flag(true)]))
  {
    var gs := [Group("", "foo"), Group("lol", "1"), Group("", "bar")];
    assert gs[..2] == [Group("", "foo"), Group("lol", "1")];
    assert gs[..2][..1] == [Group("", "foo")] && gs[..2][..1][..0] == [];
    assert JoinUnnamed(gs[..2][..1]) == "foo";
    assert JoinUnnamed(gs[..2]) == "foo";
    assert JoinUnnamed(gs) == "foo" + "." + "bar" == "foo.bar";
    assert NamedTags(gs[..2][..1]) == map[];
    assert NamedTags(gs[..2]) == map["lol" := "1"];
    assert NamedTags(gs) == map["lol" := "1"];
  }

  /**
   * An unnamed group that captured "" after one that captured `temp`, as an
   * alternation such as `/(temp)(|_raw)` gives on /temp: the field name ends in '.'.
   */
  lemma TrailingEmptyCapture(numeric: string -> bool)
    requires numeric("21.5")
    ensures Gather(Some([Group("", "temp"), Group("", "")]), "/temp", "21.5", numeric)
         == Some(Data(map[], map["temp." := Raw("21.5")]))
  {
    var gs := [Group("", "temp"), Group("", "")];
    assert gs[..1] == [Group("", "temp")] && gs[..1][..0] == [];
    assert JoinUnnamed(gs[..1]) == "temp";
    assert JoinUnnamed(gs) == "temp" + "." + "" == "temp.";
    assert NamedTags(gs) == map[];
  }

  /** A leading empty capture adds no '.': captures "", "b" give field "b". */
  lemma LeadingEmptyCapture(numeric: string -> bool)
    requires numeric("1")
    ensures Gather(Some([Group("", ""), Group("", "b")]), "/a/b", "1", numeric)
         == Some(Data(map[], map["b" := Raw("1")]))
  {
    var gs := [Group("", ""), Group("", "b")];
    assert gs[..1] == [Group("", "")] && gs[..1][..0] == [];
    assert JoinUnnamed(gs[..1]) == "";
    assert JoinUnnamed(gs) == "b";
    assert NamedTags(gs) == map[];
  }
}
