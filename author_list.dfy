/**
 * The comma-joined author column of both Core Data entities: `joined(separator: ",")`
 * to store, `split(separator: ",")` (empty pieces dropped) to read back.
 */
module AuthorList {

  const Separator: char := ','

  /** An author name survives the column exactly when it is non-empty and has no comma. */
  predicate Storable(name: string) {
    name != [] && Separator !in name
  }

  predicate AllStorable(names: seq<string>) {
    forall i :: 0 <= i < |names| ==> Storable(names[i])
  }

  /** `names.joined(separator: ",")`. */
  function Join(names: seq<string>): (s: string)
    ensures |names| <= 1 ==> s == (if names == [] then "" else names[0])
    ensures |names| >= 2 ==> Separator in s
  {
    if names == [] then ""
    else if |names| == 1 then names[0]
    else names[0] + [Separator] + Join(names[1..])
  }

  /** Every comma-separated field of `s`, empty ones included; there is one more field than commas. */
  function Fields(s: string): (fs: seq<string>)
    ensures |fs| >= 1
    ensures forall i :: 0 <= i < |fs| ==> Separator !in fs[i]
  {
    if s == [] then [""]
    else if s[0] == Separator then [""] + Fields(s[1..])
    else
      var rest := Fields(s[1..]);
      [[s[0]] + rest[0]] + rest[1..]
  }

  /** The non-empty strings of `fs`, in order. */
  function NonEmpty(fs: seq<string>): (r: seq<string>)
    ensures |r| <= |fs|
    ensures forall i :: 0 <= i < |r| ==> r[i] != [] && r[i] in fs
  {
    if fs == [] then []
    else if fs[0] == [] then NonEmpty(fs[1..])
    else [fs[0]] + NonEmpty(fs[1..])
  }

  /** `s.split(separator: ",")`: the non-empty fields of `s`, so that no piece is empty or holds a comma. */
  function Split(s: string): (names: seq<string>)
    ensures AllStorable(names)
  {
    NonEmpty(Fields(s))
  }

  lemma {:induction false} NonEmptyAppend(a: seq<string>, b: seq<string>)
    ensures NonEmpty(a + b) == NonEmpty(a) + NonEmpty(b)
  {
    if a == [] {
      assert a + b == b;
    } else {
      assert (a + b)[1..] == a[1..] + b;
      NonEmptyAppend(a[1..], b);
    }
  }

  /** A comma-free string is a single field. */
  lemma {:induction false} FieldsOfPlain(name: string)
    requires Separator !in name
    ensures Fields(name) == [name]
  {
    if name != [] {
      FieldsOfPlain(name[1..]);
      assert [name[0]] + name[1..] == name;
    }
  }

  /** A comma-free prefix followed by a comma is the first field. */
  lemma {:induction false} FieldsOfJoined(name: string, rest: string)
    requires Separator !in name
    ensures Fields(name + [Separator] + rest) == [name] + Fields(rest)
  {
    if name == [] {
      assert name + [Separator] + rest == [Separator] + rest;
      assert ([Separator] + rest)[1..] == rest;
    } else {
      var s := name + [Separator] + rest;
      assert s[1..] == name[1..] + [Separator] + rest;
      FieldsOfJoined(name[1..], rest);
      assert [name[0]] + name[1..] == name;
    }
  }

  /** Joining and then splitting gives back the list when every name is storable. */
  lemma {:induction false} SplitJoin(names: seq<string>)
    requires AllStorable(names)
    ensures Split(Join(names)) == names
  {
    if names == [] {
    } else if |names| == 1 {
      FieldsOfPlain(names[0]);
    } else {
      assert Storable(names[0]);
      assert AllStorable(names[1..]) by {
        forall i | 0 <= i < |names[1..]| ensures Storable(names[1..][i]) {
          assert names[1..][i] == names[i + 1];
        }
      }
      FieldsOfJoined(names[0], Join(names[1..]));
      NonEmptyAppend([names[0]], Fields(Join(names[1..])));
      SplitJoin(names[1..]);
    }
  }

  /** The author list survives the column exactly when every name is non-empty and comma-free. */
  lemma AuthorsRoundTrip(names: seq<string>)
    ensures Split(Join(names)) == names <==> AllStorable(names)
  {
    if AllStorable(names) {
      SplitJoin(names);
    }
  }

  /** A concrete list the column loses: a name with a comma is cut in two. */
  lemma CommaInNameIsCut()
    ensures Split(Join(["Doe, Jane"])) == ["Doe", " Jane"]
  {
    var s := "Doe, Jane";
    assert s == "Doe" + [Separator] + " Jane";
    FieldsOfJoined("Doe", " Jane");
    FieldsOfPlain(" Jane");
    assert Fields(s) == ["Doe", " Jane"];
  }
}
