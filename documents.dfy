/**
  Donor documents as the service sees them: a free-form mapping from field names to
  values, plus the two operations the handlers apply to request bodies before they
  reach the store: `cleanData` (drop blank keys) and the `$set` merge of an update.
*/
module Documents {

  /** A JSON scalar as it arrives in a request body and is stored in a field. */
  datatype Value = Null | Bool(b: bool) | Num(n: int) | Str(s: string)

  /** The fields of one donor document, `_id` excluded. */
  type Doc = map<string, Value>

  /** A document identifier (the store's `_id`). */
  type Id = string

  /** One stored document together with its identifier. */
  datatype Record = Record(id: Id, doc: Doc)

  /** The characters that JavaScript's `String.prototype.trim` strips: the
      WhiteSpace set (TAB, VT, FF, SP, NBSP, ZWNBSP and every Zs character) and the
      LineTerminator set (LF, CR, LS, PS). */
  predicate IsJsWhitespace(c: char) {
    || c == '\t' || c == '\n' || c == '\U{000B}' || c == '\U{000C}' || c == '\r'
    || c == ' ' || c == '\U{00A0}' || c == '\U{1680}'
    || ('\U{2000}' <= c <= '\U{200A}')
    || c == '\U{2028}' || c == '\U{2029}' || c == '\U{202F}' || c == '\U{205F}'
    || c == '\U{3000}' || c == '\U{FEFF}'
  }

  /** Every character of `s` is whitespace (vacuously true of the empty string). */
  predicate AllWhitespace(s: string) {
    forall i :: 0 <= i < |s| ==> IsJsWhitespace(s[i])
  }

  /** Leading whitespace removed: the result is the suffix of `s` after a run of
      whitespace, and it does not itself start with whitespace. */
  function TrimStart(s: string): (r: string)
    ensures |r| <= |s| && r == s[|s| - |r|..]
    ensures AllWhitespace(s[..|s| - |r|])
    ensures r != [] ==> !IsJsWhitespace(r[0])
  {
    if s != [] && IsJsWhitespace(s[0]) then
      var r := TrimStart(s[1..]);
      assert s[..|s| - |r|] == [s[0]] + s[1..][..|s[1..]| - |r|];
      r
    else s
  }

  /** Trailing whitespace removed: the result is the prefix of `s` before a run of
      whitespace, and it does not itself end with whitespace. */
  function TrimEnd(s: string): (r: string)
    ensures |r| <= |s| && r == s[..|r|]
    ensures AllWhitespace(s[|r|..])
    ensures r != [] ==> !IsJsWhitespace(r[|r| - 1])
  {
    if s != [] && IsJsWhitespace(s[|s| - 1]) then
      var r := TrimEnd(s[..|s| - 1]);
      assert s[|r|..] == s[..|s| - 1][|r|..] + [s[|s| - 1]];
      r
    else s
  }

  /** `s.trim()`: empty exactly when `s` is all whitespace; otherwise it neither
      starts nor ends with whitespace. */
  function Trim(s: string): (r: string)
    ensures r == [] <==> AllWhitespace(s)
    ensures r != [] ==> !IsJsWhitespace(r[0]) && !IsJsWhitespace(r[|r| - 1])
  {
    var t := TrimStart(s);
    var r := TrimEnd(t);
    assert s == s[..|s| - |t|] + t;
    assert r == [] ==> t == t[|r|..];
    assert t != [] ==> t[0] == s[|s| - |t|];
    r
  }

  /** `Trim(s)` is what lies between the leading and the trailing run of
      whitespace of `s`. */
  lemma TrimBetweenWhitespace(s: string)
    ensures exists a :: 0 <= a <= |s| - |Trim(s)| && AllWhitespace(s[..a]) &&
                        Trim(s) == s[a..a + |Trim(s)|] && AllWhitespace(s[a + |Trim(s)|..])
  {
    var t := TrimStart(s);
    var r := TrimEnd(t);
    assert Trim(s) == r;
    var a := |s| - |t|;
    assert t == s[a..];
    assert r == t[..|r|] == s[a..a + |r|];
    assert t[|r|..] == s[a + |r|..];
  }

  /** The filter of `cleanData`: `key && key.trim() !== ""`. */
  predicate KeyKept(key: string) {
    key != [] && Trim(key) != []
  }

  /** `cleanData(obj)`: the body without the entries whose key is empty or consists
      of whitespace only. Exactly the other entries are kept, with their values. */
  function CleanData(body: Doc): (r: Doc)
    ensures forall k :: k in r <==> k in body && !AllWhitespace(k)
    ensures forall k :: k in r ==> r[k] == body[k]
  {
    map k | k in body && KeyKept(k) :: body[k]
  }

  /** No field name of `doc` is empty or whitespace-only. */
  predicate NoBlankKeys(doc: Doc) {
    forall k :: k in doc ==> !AllWhitespace(k)
  }

  /** `cleanData` never adds a key, and what it returns has no blank key. */
  lemma CleanDataShrinks(body: Doc)
    ensures CleanData(body).Keys <= body.Keys
    ensures NoBlankKeys(CleanData(body))
  {
  }

  /** Cleaning a cleaned body changes nothing. */
  lemma CleanDataIdempotent(body: Doc)
    ensures CleanData(CleanData(body)) == CleanData(body)
  {
  }

  /** A body is reduced to nothing exactly when every key in it is blank; in
      particular an empty body stays empty. */
  lemma CleanDataEmptyIff(body: Doc)
    ensures CleanData(body) == map[] <==> forall k :: k in body ==> AllWhitespace(k)
  {
  }

  /** The effect of `{ $set: fields }` on a document: every given key takes the
      given value, every other field keeps its value, and no field is removed. */
  function Merge(doc: Doc, fields: Doc): (r: Doc)
    ensures r.Keys == doc.Keys + fields.Keys
    ensures forall k :: k in fields ==> r[k] == fields[k]
    ensures forall k :: k in doc && k !in fields ==> r[k] == doc[k]
  {
    doc + fields
  }

  /** Repeating the same `$set` has no further effect. */
  lemma MergeIdempotent(doc: Doc, fields: Doc)
    ensures Merge(Merge(doc, fields), fields) == Merge(doc, fields)
  {
  }

  /** An entry under a blank key makes no difference to the cleaned body. */
  lemma CleanDataIgnoresBlank(body: Doc, k: string, v: Value)
    requires AllWhitespace(k)
    ensures CleanData(body[k := v]) == CleanData(body)
  {
  }

  /** A body whose keys are all non-blank comes out of cleaning unchanged. */
  lemma CleanDataKeepsClean(body: Doc)
    requires NoBlankKeys(body)
    ensures CleanData(body) == body
  {
  }

  /** An update body `{ Blood_Group: "B+", "": "ignored" }` is cleaned to
      `{ Blood_Group: "B+" }`: the empty key is dropped. */
  lemma CleanDataExample()
    ensures CleanData(map["Blood_Group" := Str("B+"), "" := Str("ignored")]) == map["Blood_Group" := Str("B+")]
  {
  }

  /** Setting `Blood_Group` on `{ Name: "Carl", Blood_Group: "A+" }` changes that
      field and leaves `Name` as it was. */
  lemma MergeExample()
    ensures Merge(map["Name" := Str("Carl"), "Blood_Group" := Str("A+")], map["Blood_Group" := Str("B+")]) ==
            map["Name" := Str("Carl"), "Blood_Group" := Str("B+")]
  {
  }

  /** Merging cleaned fields into a document without blank keys yields a document
      without blank keys. */
  lemma MergeCleanKeepsNoBlankKeys(doc: Doc, body: Doc)
    requires NoBlankKeys(doc)
    ensures NoBlankKeys(Merge(doc, CleanData(body)))
  {
  }
}
