/** PHP's ACL lists and libzookeeper's ACL vectors. */
module AclList {
  import opened CStrings

  datatype Zval =
    | Long(n: int)
    | Str(s: string)
    | Arr(fields: map<string, Zval>)
    | Other(tag: int)

  /** struct ACL: perms is an int32_t, the strings end at their first NUL. */
  datatype Acl = Acl(perms: int, scheme: string, id: string)

  /** convert_to_long and convert_to_string, fixed only on values of the type asked for. */
  datatype Conversions = Conversions(toLong: Zval -> int, toStr: Zval -> string)

  ghost predicate Sane(c: Conversions) {
    (forall n :: c.toLong(Long(n)) == n) && (forall s :: c.toStr(Str(s)) == s)
  }

  /** The cast to int32_t. */
  function ToInt32(n: int): int {
    (n + 0x8000_0000) % 0x1_0000_0000 - 0x8000_0000
  }

  /** What strdup copies of a PHP string. */
  function CString(s: string): string {
    if s == [] || s[0] == '\0' then [] else [s[0]] + CString(s[1..])
  }

  predicate WellFormed(z: Zval) {
    z.Arr? && "perms" in z.fields && "scheme" in z.fields && "id" in z.fields
  }

  function Convert(c: Conversions, z: Zval): Acl
    requires WellFormed(z)
  {
    Acl(ToInt32(c.toLong(z.fields["perms"])), CString(c.toStr(z.fields["scheme"])), CString(c.toStr(z.fields["id"])))
  }

  /** The vector that parsing a list comes to. */
  function Parsed(c: Conversions, list: seq<Zval>): seq<Acl> {
    if list == [] then []
    else
      var rest := Parsed(c, list[..|list| - 1]);
      if WellFormed(list[|list| - 1]) then rest + [Convert(c, list[|list| - 1])] else rest
  }

  /** php_parse_acl_list: None when it leaves the vector untouched. */
  method ParseAclList(c: Conversions, list: seq<Zval>) returns (aclv: Option<seq<Acl>>)
    ensures aclv == if list == [] then None else Some(Parsed(c, list))
  {
    if list == [] {
      return None;
    }
    var data := new Acl[|list|];
    var i := 0;
    for j := 0 to |list|
      invariant 0 <= i <= j && data[..i] == Parsed(c, list[..j])
    {
      assert list[..j + 1][..j] == list[..j];
      if WellFormed(list[j]) {
        data[i] := Convert(c, list[j]);
        i := i + 1;
      }
    }
    assert list[..|list|] == list;
    return Some(data[..i]);
  }

  /** The positions that parsing keeps. */
  function Kept(list: seq<Zval>): seq<nat> {
    if list == [] then []
    else
      var last := |list| - 1;
      var rest := Kept(list[..last]);
      if WellFormed(list[last]) then rest + [last] else rest
  }

  lemma Int32Of(n: int)
    ensures -0x8000_0000 <= ToInt32(n) < 0x8000_0000 && ToInt32(n) % 0x1_0000_0000 == n % 0x1_0000_0000
  {
  }

  /** The ACL that an array describes: perms modulo 2^32, scheme and id up to the first NUL. */
  ghost predicate Describes(c: Conversions, z: Zval, a: Acl)
    requires WellFormed(z)
  {
    && -0x8000_0000 <= a.perms < 0x8000_0000
    && a.perms % 0x1_0000_0000 == c.toLong(z.fields["perms"]) % 0x1_0000_0000
    && UpToNul(a.scheme, c.toStr(z.fields["scheme"])) && UpToNul(a.id, c.toStr(z.fields["id"]))
  }

  predicate UpToNul(t: string, s: string) {
    t <= s && '\0' !in t && (t == s || s[|t|] == '\0')
  }

  lemma ConvertDescribes(c: Conversions, z: Zval)
    requires WellFormed(z)
    ensures Describes(c, z, Convert(c, z))
  {
    Int32Of(c.toLong(z.fields["perms"]));
    CStringOf(c.toStr(z.fields["scheme"]));
    CStringOf(c.toStr(z.fields["id"]));
  }

  /** Parsing keeps exactly the well-formed entries, each once and in order. */
  lemma {:induction false} ParseKeepsWellFormed(c: Conversions, list: seq<Zval>)
    ensures |Parsed(c, list)| == |Kept(list)| <= |list|
    ensures forall i, j :: 0 <= i < j < |Kept(list)| ==> Kept(list)[i] < Kept(list)[j]
    ensures forall p :: p in Kept(list) ==> p < |list|
    ensures forall p: nat :: p < |list| ==> (p in Kept(list) <==> WellFormed(list[p]))
    ensures forall j :: 0 <= j < |Kept(list)| ==>
              && Kept(list)[j] < |list| && WellFormed(list[Kept(list)[j]])
              && Parsed(c, list)[j] == Convert(c, list[Kept(list)[j]])
              && Describes(c, list[Kept(list)[j]], Parsed(c, list)[j])
  {
    if list != [] {
      var last := |list| - 1;
      var rest := list[..last];
      ParseKeepsWellFormed(c, rest);
      forall j | 0 <= j < |Kept(list)|
        ensures Kept(list)[j] < |list| && WellFormed(list[Kept(list)[j]])
        ensures Parsed(c, list)[j] == Convert(c, list[Kept(list)[j]])
        ensures Describes(c, list[Kept(list)[j]], Parsed(c, list)[j])
      {
        if j < |Kept(rest)| {
          assert Kept(rest)[j] < last && rest[Kept(rest)[j]] == list[Kept(rest)[j]];
        } else {
          ConvertDescribes(c, list[last]);
        }
      }
      forall p: nat | p < |list| ensures p in Kept(list) <==> WellFormed(list[p]) {
        if p < last {
          assert list[p] == rest[p];
        }
      }
    }
  }

  function Printed(aclv: seq<Acl>): seq<Zval> {
    seq(|aclv|, i requires 0 <= i < |aclv| => PrintedEntry(aclv[i]))
  }

  function PrintedEntry(a: Acl): Zval {
    Arr(map["perms" := Long(a.perms), "scheme" := Str(a.scheme), "id" := Str(a.id)])
  }

  /** php_aclv_to_array. */
  method AclvToArray(aclv: seq<Acl>) returns (list: seq<Zval>)
    ensures list == Printed(aclv)
    ensures |list| == |aclv| && forall i :: 0 <= i < |list| ==>
              && list[i].Arr? && list[i].fields.Keys == {"perms", "scheme", "id"}
              && list[i].fields["perms"] == Long(aclv[i].perms)
              && list[i].fields["scheme"] == Str(aclv[i].scheme) && list[i].fields["id"] == Str(aclv[i].id)
  {
    list := [];
    for i := 0 to |aclv|
      invariant list == Printed(aclv)[..i]
    {
      list := list + [PrintedEntry(aclv[i])];
    }
  }

  /** A vector as C can hold it. */
  ghost predicate IsVector(aclv: seq<Acl>) {
    forall i :: 0 <= i < |aclv| ==>
      && -0x8000_0000 <= aclv[i].perms < 0x8000_0000
      && '\0' !in aclv[i].scheme && '\0' !in aclv[i].id
  }

  lemma {:induction false} CStringOf(s: string)
    ensures UpToNul(CString(s), s)
    ensures '\0' !in s ==> CString(s) == s
  {
    if s != [] && s[0] != '\0' {
      CStringOf(s[1..]);
      assert s == [s[0]] + s[1..];
    }
  }

  lemma {:induction false} ParsedIsVector(c: Conversions, list: seq<Zval>)
    ensures IsVector(Parsed(c, list))
  {
    if list != [] {
      var last := list[|list| - 1];
      ParsedIsVector(c, list[..|list| - 1]);
      if WellFormed(last) {
        CStringOf(c.toStr(last.fields["scheme"]));
        CStringOf(c.toStr(last.fields["id"]));
      }
    }
  }

  lemma ConvertPrinted(c: Conversions, a: Acl)
    requires Sane(c) && IsVector([a])
    ensures WellFormed(PrintedEntry(a)) && Convert(c, PrintedEntry(a)) == a
  {
    assert [a][0] == a;
    CStringOf(a.scheme);
    CStringOf(a.id);
  }

  /** Printing and parsing again gives the vector back. */
  lemma {:induction false} PrintParse(c: Conversions, aclv: seq<Acl>)
    requires Sane(c) && IsVector(aclv)
    ensures Parsed(c, Printed(aclv)) == aclv
  {
    if aclv != [] {
      var most, last := aclv[..|aclv| - 1], aclv[|aclv| - 1];
      PrintParse(c, most);
      ConvertPrinted(c, last);
      assert Printed(aclv)[..|aclv| - 1] == Printed(most);
      assert aclv == most + [last];
    }
  }

  /** Whatever the list, one parse settles it: printing and parsing again changes nothing. */
  lemma ParsePrintParse(c: Conversions, list: seq<Zval>)
    requires Sane(c)
    ensures Parsed(c, Printed(Parsed(c, list))) == Parsed(c, list)
  {
    ParsedIsVector(c, list);
    PrintParse(c, Parsed(c, list));
  }
}
