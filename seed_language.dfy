/**
 * The mnemonic-language catalogue: first-match lookups by name, English name
 * and code, the per-seed-type filter and the default-language map. The
 * catalogue (`s_list`) and the default map (`s_default`) are inputs.
 */
module SeedLanguages {
  import opened Common
  import opened OtsExceptions

  /** The mnemonic scheme families a language may support. */
  datatype SeedType = Monero | Polyseed

  /** One dictionary entry; `name`, `englishName` and `code` are its accessors. */
  datatype SeedLanguage = SeedLanguage(
    name: string,
    englishName: string,
    code: string,
    supported: map<SeedType, bool>)

  /** The process-wide catalogue `s_list` and the default map `s_default`. */
  datatype Catalogue = Catalogue(list: seq<SeedLanguage>, defaults: map<SeedType, SeedLanguage>)

  /** `operator==`: two languages are equal when their codes are. */
  predicate Same(a: SeedLanguage, b: SeedLanguage): (r: bool)
    ensures a == b ==> r
  {
    a.code == b.code
  }

  lemma SameIsEquivalence(a: SeedLanguage, b: SeedLanguage, c: SeedLanguage)
    ensures Same(a, a)
    ensures Same(a, b) <==> Same(b, a)
    ensures Same(a, b) && Same(b, c) ==> Same(a, c)
  {
  }

  /** The string field a lookup compares against. */
  datatype Field = NameField | EnglishNameField | CodeField

  function FieldOf(l: SeedLanguage, f: Field): string {
    match f
    case NameField => l.name
    case EnglishNameField => l.englishName
    case CodeField => l.code
  }

  /** The index of the first element of `s` that satisfies `p`, if any. */
  function FirstWhere(s: seq<SeedLanguage>, p: SeedLanguage -> bool): (r: Option<nat>)
    ensures r.Some? ==> r.value < |s| && p(s[r.value])
    ensures r.Some? ==> forall j :: 0 <= j < r.value ==> !p(s[j])
    ensures r.None? ==> forall j :: 0 <= j < |s| ==> !p(s[j])
    decreases |s|
  {
    if s == [] then None
    else if p(s[0]) then Some(0)
    else
      match FirstWhere(s[1..], p)
      case None => None
      case Some(i) => Some(i + 1)
  }

  /**
   * `supported(type)`: the flag of the first catalogue entry that has an entry
   * for `t`, false if none does. The receiver `self` is not consulted.
   */
  function Supported(cat: Catalogue, self: SeedLanguage, t: SeedType): (r: bool)
    ensures r <==> exists i :: 0 <= i < |cat.list| && t in cat.list[i].supported && cat.list[i].supported[t]
                              && forall j :: 0 <= j < i ==> t !in cat.list[j].supported
    ensures (forall i :: 0 <= i < |cat.list| ==> t !in cat.list[i].supported) ==> !r
  {
    match FirstWhere(cat.list, (x: SeedLanguage) => t in x.supported)
    case None => false
    case Some(i) => cat.list[i].supported[t]
  }

  /** The loop behind `supported(type)`, with its early return. */
  method SupportedLoop(cat: Catalogue, self: SeedLanguage, t: SeedType) returns (r: bool)
    ensures r == Supported(cat, self, t)
  {
    for i := 0 to |cat.list|
      invariant forall j :: 0 <= j < i ==> t !in cat.list[j].supported
    {
      var item := cat.list[i];
      if t in item.supported {
        return item.supported[t];
      }
    }
    return false;
  }

  /** `supported` gives the same answer whichever language it is asked of. */
  lemma SupportedIgnoresReceiver(cat: Catalogue, a: SeedLanguage, b: SeedLanguage, t: SeedType)
    ensures Supported(cat, a, t) == Supported(cat, b, t)
  {
  }

  /** The first entry of `s` whose field `f` equals `key` exactly, or `LanguageNotFound`. */
  function Find(s: seq<SeedLanguage>, f: Field, key: string): (r: Result<SeedLanguage>)
    ensures r.Success? ==> exists i :: 0 <= i < |s| && s[i] == r.value
                              && (forall j :: 0 <= j < i ==> FieldOf(s[j], f) != key)
    ensures r.Success? ==> FieldOf(r.value, f) == key
    ensures r.Failure? <==> forall j :: 0 <= j < |s| ==> FieldOf(s[j], f) != key
    ensures r.Failure? ==> r.error == LanguageNotFound
  {
    match FirstWhere(s, (x: SeedLanguage) => FieldOf(x, f) == key)
    case None => Failure(LanguageNotFound)
    case Some(i) => Success(s[i])
  }

  /** The loop shared by `fromName`, `fromEnglishName` and `fromCode`. */
  method Scan(s: seq<SeedLanguage>, f: Field, key: string) returns (r: Result<SeedLanguage>)
    ensures r == Find(s, f, key)
  {
    for i := 0 to |s|
      invariant forall j :: 0 <= j < i ==> FieldOf(s[j], f) != key
    {
      var item := s[i];
      if FieldOf(item, f) == key {
        return Success(item);
      }
    }
    return Failure(LanguageNotFound);
  }

  method FromName(cat: Catalogue, name: string) returns (r: Result<SeedLanguage>)
    ensures r == Find(cat.list, NameField, name)
  {
    r := Scan(cat.list, NameField, name);
  }

  method FromEnglishName(cat: Catalogue, name: string) returns (r: Result<SeedLanguage>)
    ensures r == Find(cat.list, EnglishNameField, name)
  {
    r := Scan(cat.list, EnglishNameField, name);
  }

  method FromCode(cat: Catalogue, code: string) returns (r: Result<SeedLanguage>)
    ensures r == Find(cat.list, CodeField, code)
  {
    r := Scan(cat.list, CodeField, code);
  }

  /** Looking up the code of any listed language finds a language equal to it. */
  lemma FromCodeFindsListed(cat: Catalogue, i: nat)
    requires i < |cat.list|
    ensures Find(cat.list, CodeField, cat.list[i].code).Success?
    ensures Same(Find(cat.list, CodeField, cat.list[i].code).value, cat.list[i])
  {
  }

  /** The elements of `s`, in order, for which `supported(t)` holds. */
  function Filter(cat: Catalogue, s: seq<SeedLanguage>, t: SeedType): (r: seq<SeedLanguage>)
    ensures |r| <= |s|
    ensures forall x :: x in r ==> x in s && Supported(cat, x, t)
    ensures forall x :: x in s && Supported(cat, x, t) ==> x in r
    decreases |s|
  {
    if s == [] then []
    else
      var init := Filter(cat, s[..|s| - 1], t);
      assert forall x :: x in s[..|s| - 1] ==> x in s;
      assert forall x :: x in s ==> x in s[..|s| - 1] || x == s[|s| - 1];
      if Supported(cat, s[|s| - 1], t) then init + [s[|s| - 1]] else init
  }

  /** `listFor(type)`: the catalogue filtered by `supported(type)`. */
  function ListFor(cat: Catalogue, t: SeedType): (r: seq<SeedLanguage>)
    ensures r == cat.list || r == []
    ensures forall x :: x in r ==> x in cat.list && Supported(cat, x, t)
  {
    FilterAllOrNothing(cat, cat.list, t, SeedLanguage("", "", "", map[]));
    Filter(cat, cat.list, t)
  }

  /** The loop behind `listFor`, which asks `supported` of every catalogue entry. */
  method ListForLoop(cat: Catalogue, t: SeedType) returns (out: seq<SeedLanguage>)
    ensures out == ListFor(cat, t)
  {
    out := [];
    for i := 0 to |cat.list|
      invariant out == Filter(cat, cat.list[..i], t)
    {
      var item := cat.list[i];
      var keep := SupportedLoop(cat, item, t);
      assert cat.list[..i + 1][..i] == cat.list[..i];
      if keep {
        out := out + [item];
      }
    }
    assert cat.list[..|cat.list|] == cat.list;
  }

  /** Since `supported` ignores its receiver, a filter keeps everything or nothing. */
  lemma {:induction false} FilterAllOrNothing(cat: Catalogue, s: seq<SeedLanguage>, t: SeedType, any: SeedLanguage)
    ensures Filter(cat, s, t) == if Supported(cat, any, t) then s else []
    decreases |s|
  {
    if s != [] {
      FilterAllOrNothing(cat, s[..|s| - 1], t, any);
      SupportedIgnoresReceiver(cat, any, s[|s| - 1], t);
      assert s[..|s| - 1] + [s[|s| - 1]] == s;
    }
  }

  /** `listFor(type)` returns the whole catalogue or nothing. */
  lemma ListForAllOrNothing(cat: Catalogue, t: SeedType, any: SeedLanguage)
    ensures ListFor(cat, t) == if Supported(cat, any, t) then cat.list else []
    ensures ListFor(cat, t) == cat.list || ListFor(cat, t) == []
  {
    FilterAllOrNothing(cat, cat.list, t, any);
  }

  /** `isDefault(type)`: a default is registered for `t` and has the receiver's code. */
  predicate IsDefault(cat: Catalogue, self: SeedLanguage, t: SeedType): (r: bool)
    ensures t !in cat.defaults ==> !r
    ensures r ==> Same(self, cat.defaults[t])
  {
    t in cat.defaults && cat.defaults[t].code == self.code
  }

  /** All languages that are default for one seed type are equal. */
  lemma DefaultsShareCode(cat: Catalogue, a: SeedLanguage, b: SeedLanguage, t: SeedType)
    requires IsDefault(cat, a, t) && IsDefault(cat, b, t)
    ensures Same(a, b)
  {
  }

  /** `defaultLanguage(type)`: the registered default, or `NoDefaultLanguageSet`. */
  function DefaultLanguage(cat: Catalogue, t: SeedType): (r: Result<SeedLanguage>)
    ensures r.Success? <==> t in cat.defaults
    ensures r.Success? ==> r.value == cat.defaults[t] && IsDefault(cat, r.value, t)
    ensures r.Failure? ==> r.error == NoDefaultLanguageSet
  {
    if t in cat.defaults then Success(cat.defaults[t]) else Failure(NoDefaultLanguageSet)
  }
}
