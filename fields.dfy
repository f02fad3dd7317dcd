/**
 * The fixed allow-list of record fields the decoder keeps
 * (src/calibre.hpp, required_fields) and the membership test that Key
 * applies to every key.
 */
module Fields {

  /** The nine entries exactly as the source lists them, including the
      trailing blank in "uuid ". */
  const RequiredFields: set<string> := {
    "authors",
    "last_modified",
    "lpath",
    "series",
    "series_index",
    "size",
    "tags",
    "title",
    "uuid "
  }

  /** required_fields.count(str) != 0: exact, case-sensitive membership. */
  predicate IsRequired(key: string)
  {
    key in RequiredFields
  }

  /** The key "uuid" is not kept; only a key spelled with the trailing blank
      is. Neither a prefix nor a case variant of an entry is kept either. */
  lemma {:induction false} UuidKeyIsDropped()
    ensures !IsRequired("uuid") && IsRequired("uuid ")
    ensures !IsRequired("Title") && !IsRequired("tag") && !IsRequired("series ")
  {
    assert "uuid" != "uuid ";
  }

  /** The allow-list literal has nine distinct entries: none is written
      twice. The count is only used as the size hint StartObject passes to
      lua_createtable, which does not change what a table holds. */
  lemma AllowListSize()
    ensures |RequiredFields| == 9
  {
    var a := {"authors", "last_modified", "lpath", "series"};
    var b := {"series_index", "size", "tags", "title", "uuid "};
    assert |a| == 4;
    assert |b| == 5;
    assert a * b == {};
    assert RequiredFields == a + b;
  }
}
