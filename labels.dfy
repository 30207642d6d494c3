/** Scope labels: `/`-separated component strings, and `labelForScope`
    (processor/label_for_scope.js). */
module Labels {
  import opened Wrappers

  const Separator: char := '/'

  /** The components joined back with the separator between them. */
  function Join(parts: seq<string>): string
    requires |parts| >= 1
  {
    if |parts| == 1 then parts[0] else parts[0] + [Separator] + Join(parts[1..])
  }

  /** JavaScript's `s.split("/")`: the maximal separator-free pieces, empty
      ones included, so that joining them gives `s` back. */
  function Split(s: string): (parts: seq<string>)
    ensures |parts| >= 1
    ensures forall i :: 0 <= i < |parts| ==> Separator !in parts[i]
    ensures Join(parts) == s
    decreases |s|
  {
    if s == [] then [""]
    else
      var rest := Split(s[1..]);
      if s[0] == Separator then
        assert ([""] + rest)[1..] == rest;
        [""] + rest
      else
        JoinConsChar(s[0], rest);
        [[s[0]] + rest[0]] + rest[1..]
  }

  lemma JoinConsChar(c: char, parts: seq<string>)
    requires |parts| >= 1
    ensures Join([[c] + parts[0]] + parts[1..]) == [c] + Join(parts)
  {
    var q := [[c] + parts[0]] + parts[1..];
    assert |q| == |parts| && q[0] == [c] + parts[0] && q[1..] == parts[1..];
    if |parts| > 1 {
      JoinMore(q);
      JoinMore(parts);
      SeqAssoc([c], parts[0], [Separator] + Join(parts[1..]));
    }
  }

  lemma JoinMore(parts: seq<string>)
    requires |parts| > 1
    ensures Join(parts) == parts[0] + ([Separator] + Join(parts[1..]))
  {
    assert parts[0] + [Separator] + Join(parts[1..]) == parts[0] + ([Separator] + Join(parts[1..]));
  }

  /** Splitting a separator-free prefix glued onto `tail` glues it onto the
      first piece of `tail`. */
  lemma {:induction false} SplitPrefix(p: string, tail: string)
    requires Separator !in p
    ensures Split(p + tail) == [p + Split(tail)[0]] + Split(tail)[1..]
    decreases |p|
  {
    if p != [] {
      assert (p + tail)[1..] == p[1..] + tail;
      assert (p + tail)[0] == p[0];
      SplitPrefix(p[1..], tail);
      assert [p[0]] + (p[1..] + Split(tail)[0]) == p + Split(tail)[0];
    } else {
      var t := Split(tail);
      assert p + tail == tail;
      assert p + t[0] == t[0];
      assert [t[0]] + t[1..] == t;
    }
  }

  /** Joining and splitting are inverse on separator-free components. */
  lemma {:induction false} SplitJoin(parts: seq<string>)
    requires |parts| >= 1
    requires forall i :: 0 <= i < |parts| ==> Separator !in parts[i]
    ensures Split(Join(parts)) == parts
    decreases |parts|
  {
    if |parts| == 1 {
      SplitPrefix(parts[0], "");
      assert parts[0] + "" == parts[0];
    } else {
      var rest := Join(parts[1..]);
      SplitJoin(parts[1..]);
      assert parts[0] + [Separator] + rest == parts[0] + ([Separator] + rest);
      SplitPrefix(parts[0], [Separator] + rest);
      assert ([Separator] + rest)[1..] == rest;
      assert Split([Separator] + rest) == [""] + parts[1..];
      assert parts[0] + "" == parts[0];
    }
  }

  /** `scopeFields[0]`, which JavaScript renders as "undefined" when absent. */
  function FirstField(scopeFields: seq<string>): string
  {
    if |scopeFields| == 0 then "undefined" else scopeFields[0]
  }

  /** The scope types `labelForScope` knows. */
  predicate KnownScopeType(scopeType: string)
  {
    scopeType == "blockTag" || scopeType == "inline"
  }

  /** The label prefix of a known scope type. */
  function PrefixOf(scopeType: string): string
    requires KnownScopeType(scopeType)
  {
    if scopeType == "blockTag" then "block" else "inline"
  }

  function LabelForScope(scopeType: string, scopeFields: seq<string>): (r: Result<string>)
    ensures r.Ok? <==> KnownScopeType(scopeType)
    ensures r.Err? ==> r.error == UnknownScopeType(scopeType)
    ensures r.Ok? ==> r.value == PrefixOf(scopeType) + [Separator] + FirstField(scopeFields)
  {
    match scopeType
    case "blockTag" => Ok("block/" + FirstField(scopeFields))
    case "inline" => Ok("inline/" + FirstField(scopeFields))
    case _ => Err(UnknownScopeType(scopeType))
  }

  /** A label built by `labelForScope` splits into its prefix followed by the
      components of the first field: one component when that field has no
      separator. */
  lemma LabelComponents(scopeType: string, scopeFields: seq<string>)
    requires KnownScopeType(scopeType)
    ensures Split(LabelForScope(scopeType, scopeFields).value)
         == [PrefixOf(scopeType)] + Split(FirstField(scopeFields))
    ensures Separator !in FirstField(scopeFields) ==>
              Split(LabelForScope(scopeType, scopeFields).value)
              == [PrefixOf(scopeType), FirstField(scopeFields)]
  {
    var p, f := PrefixOf(scopeType), FirstField(scopeFields);
    assert p + [Separator] + f == p + ([Separator] + f);
    SplitPrefix(p, [Separator] + f);
    assert ([Separator] + f)[1..] == f;
    assert Split([Separator] + f) == [""] + Split(f);
    assert p + "" == p;
    if Separator !in f {
      SplitPrefix(f, "");
      assert f + "" == f;
    }
  }
}
