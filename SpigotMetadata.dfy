/** The getters of SpigotPluginMetadataService over the key-to-value map its YAML loader
    produced. The map is fixed at construction, so every getter is a function of it. */
module SpigotMetadata {
  import opened Wrappers
  import opened JavaStrings

  /** A YAML value as the loader hands it over: null, a string, a list, or any other object
      (a number, a boolean, a nested map), which is known here by its toString. */
  datatype YamlValue = YNull | YString(s: string) | YList(items: seq<YamlValue>) | YOther(text: string)

  type Yaml = map<string, YamlValue>

  /** The exception Object::toString raises on a null list element. */
  const NullElement := "NullPointerException"

  /** String.valueOf of a value: a list prints as "[a, b]", a null element as "null". */
  function ToText(v: YamlValue): string
    decreases v
  {
    match v
    case YNull => "null"
    case YString(s) => s
    case YOther(t) => t
    case YList(items) => "[" + Join(seq(|items|, i requires 0 <= i < |items| => ToText(items[i])), ", ") + "]"
  }

  /** metadata.get(key) != null: the key is there with a non-null value. */
  predicate Present(m: Yaml, key: string) {
    key in m && !m[key].YNull?
  }

  /** The shared shape of the four text getters: the value's string form, or the default
      when the key is absent or null. */
  function TextOr(m: Yaml, key: string, default: string): (r: string)
    ensures !Present(m, key) ==> r == default
    ensures key in m && m[key].YString? ==> r == m[key].s
    ensures Present(m, key) && m[key].YList? ==> StartsWith(r, "[") && EndsWith(r, "]")
  {
    if Present(m, key) then ToText(m[key]) else default
  }

  function PluginName(m: Yaml): (r: string)
    ensures !Present(m, "name") ==> r == "Unknown"
    ensures "name" in m && m["name"].YString? ==> r == m["name"].s
  {
    TextOr(m, "name", "Unknown")
  }

  function PluginVersion(m: Yaml): (r: string)
    ensures !Present(m, "version") ==> r == "Unknown"
    ensures "version" in m && m["version"].YString? ==> r == m["version"].s
  {
    TextOr(m, "version", "Unknown")
  }

  function PluginDescription(m: Yaml): (r: string)
    ensures !Present(m, "description") ==> r == "No description"
    ensures "description" in m && m["description"].YString? ==> r == m["description"].s
  {
    TextOr(m, "description", "No description")
  }

  function PluginMainClass(m: Yaml): (r: string)
    ensures !Present(m, "main") ==> r == "Unknown"
    ensures "main" in m && m["main"].YString? ==> r == m["main"].s
  {
    TextOr(m, "main", "Unknown")
  }

  /** getPluginAuthors: ["Unknown"] when absent; a list's elements by their string form, in
      order (a null element throws); a string holding ',' split on ',' (limit 0) with each part
      trimmed; any other string as one trimmed element; any other value by its string form. */
  function PluginAuthors(m: Yaml): (r: Result<seq<string>, string>)
    ensures !Present(m, "authors") ==> r == Success(["Unknown"])
    ensures Present(m, "authors") && m["authors"].YList? ==>
      var items := m["authors"].items;
      (r.Failure? <==> YNull in items) &&
      (r.Success? ==> |r.value| == |items| && forall i :: 0 <= i < |items| ==> r.value[i] == ToText(items[i]))
    ensures Present(m, "authors") && m["authors"].YString? && ',' !in m["authors"].s ==>
      r == Success([Trim(m["authors"].s)])
    ensures Present(m, "authors") && m["authors"].YOther? ==> r == Success([m["authors"].text])
    ensures r.Failure? ==> r.error == NullElement
  {
    if !Present(m, "authors") then Success(["Unknown"])
    else
      match m["authors"]
      case YList(items) =>
        if YNull in items then Failure(NullElement)
        else Success(seq(|items|, i requires 0 <= i < |items| => ToText(items[i])))
      case YString(s) =>
        if ',' in s then
          Success(TrimAll(Split(s, {','}, false)))
        else Success([Trim(s)])
      case YOther(t) => Success([t])
  }

  /** getPluginAuthorsString: the authors joined with ", ". */
  function PluginAuthorsString(m: Yaml): (r: Result<string, string>)
    ensures r.Success? <==> PluginAuthors(m).Success?
    ensures r.Success? ==> r.value == Join(PluginAuthors(m).value, ", ")
  {
    var authors :- PluginAuthors(m);
    Success(Join(authors, ", "))
  }

  /** The separator ", " written as ',' followed by a leading space on every later piece. */
  function Padded(names: seq<string>): (r: seq<string>)
    requires |names| >= 1
    ensures |r| == |names| && r[0] == names[0]
    ensures forall i :: 1 <= i < |names| ==> r[i] == " " + names[i]
  {
    [names[0]] + seq(|names| - 1, i requires 0 <= i < |names| - 1 => " " + names[i + 1])
  }

  lemma {:induction false} JoinPadded(names: seq<string>)
    requires |names| >= 1
    ensures Join(names, ", ") == Join(Padded(names), ",")
    decreases |names|
  {
    if |names| > 1 {
      var init := names[..|names| - 1];
      var last := names[|names| - 1];
      JoinPadded(init);
      assert names == init + [last];
      assert Padded(names) == Padded(init) + [" " + last];
      JoinAppend(init, last, ", ");
      JoinAppend(Padded(init), " " + last, ",");
    }
  }

  /** A name fit to be written in an author string: no ',' and no blank at either end. */
  predicate PlainName(n: string) {
    n != [] && ',' !in n && !Trimmable(n[0]) && !Trimmable(n[|n| - 1])
  }

  lemma PaddedHasNoComma(names: seq<string>)
    requires |names| >= 1
    requires forall i :: 0 <= i < |names| ==> PlainName(names[i])
    ensures forall i :: 0 <= i < |names| ==> NoneOf(Padded(names)[i], {','})
  {
    var ps := Padded(names);
    forall i | 0 <= i < |ps| ensures NoneOf(ps[i], {','}) {
      var n := names[i];
      if i > 0 {
        assert ps[i] == " " + n;
        assert forall j :: 1 <= j < |ps[i]| ==> ps[i][j] == n[j - 1];
      }
    }
  }

  /** A string of two or more plain names joined by ", " holds a ',' and splits into the
      padded names. */
  lemma SplitJoinedNames(names: seq<string>)
    requires |names| >= 2
    requires forall i :: 0 <= i < |names| ==> PlainName(names[i])
    ensures FirstSep(Join(names, ", "), {','}) < |Join(names, ", ")|
    ensures Split(Join(names, ", "), {','}, false) == Padded(names)
  {
    var s := Join(names, ", ");
    var ps := Padded(names);
    JoinPadded(names);
    PaddedHasNoComma(names);
    PiecesOfJoin(ps, ',');
    assert Pieces(s, {','}, false) == ps;
    assert FirstSep(s, {','}) < |s|;
    assert ps[|ps| - 1] != "";
    assert DropTrailingEmpty(ps) == ps;
  }

  /** Trimming the padded names gives the names back. */
  lemma TrimPaddedNames(names: seq<string>, i: nat)
    requires i < |names|
    requires forall i :: 0 <= i < |names| ==> PlainName(names[i])
    ensures Trim(Padded(names)[i]) == names[i]
  {
    if i == 0 {
      TrimOfTrimmed(names[0]);
    } else {
      TrimPadded(names[i]);
    }
  }

  /** The authors of a map whose "authors" entry is the string s. */
  lemma AuthorsOfString(m: Yaml, s: string)
    ensures var m' := m["authors" := YString(s)];
      PluginAuthors(m') == if ',' in s then Success(TrimAll(Split(s, {','}, false))) else Success([Trim(s)])
  {
    var m' := m["authors" := YString(s)];
    assert Present(m', "authors") && m'["authors"] == YString(s);
  }

  function TrimAll(parts: seq<string>): (r: seq<string>)
    ensures |r| == |parts| && forall i :: 0 <= i < |parts| ==> r[i] == Trim(parts[i])
  {
    seq(|parts|, i requires 0 <= i < |parts| => Trim(parts[i]))
  }

  lemma CommaInJoinedNames(names: seq<string>)
    requires |names| >= 2
    requires forall i :: 0 <= i < |names| ==> PlainName(names[i])
    ensures ',' in Join(names, ", ")
  {
    var s := Join(names, ", ");
    SplitJoinedNames(names);
    assert s[FirstSep(s, {','})] == ',';
  }

  lemma TrimAllJoinedNames(names: seq<string>)
    requires |names| >= 2
    requires forall i :: 0 <= i < |names| ==> PlainName(names[i])
    ensures TrimAll(Split(Join(names, ", "), {','}, false)) == names
  {
    SplitJoinedNames(names);
    var parts := Split(Join(names, ", "), {','}, false);
    forall i | 0 <= i < |parts| ensures TrimAll(parts)[i] == names[i] {
      TrimPaddedNames(names, i);
    }
  }

  lemma AuthorsOfSingleName(m: Yaml, n: string)
    requires PlainName(n)
    ensures PluginAuthors(m["authors" := YString(n)]) == Success([n])
  {
    AuthorsOfString(m, n);
    TrimOfTrimmed(n);
  }

  /** Round trip: authors written as one string joined by ", " read back as the same names. */
  lemma AuthorsStringRoundTrip(m: Yaml, names: seq<string>)
    requires |names| >= 1
    requires forall i :: 0 <= i < |names| ==> PlainName(names[i])
    ensures PluginAuthors(m["authors" := YString(Join(names, ", "))]) == Success(names)
  {
    if |names| == 1 {
      assert Join(names, ", ") == names[0];
      AuthorsOfSingleName(m, names[0]);
      assert [names[0]] == names;
    } else {
      AuthorsOfString(m, Join(names, ", "));
      CommaInJoinedNames(names);
      TrimAllJoinedNames(names);
    }
  }

  /** getPluginAuthorsString gives such a string back unchanged. */
  lemma AuthorsStringIsFixed(m: Yaml, names: seq<string>)
    requires |names| >= 1
    requires forall i :: 0 <= i < |names| ==> PlainName(names[i])
    ensures PluginAuthorsString(m["authors" := YString(Join(names, ", "))]) == Success(Join(names, ", "))
  {
    AuthorsStringRoundTrip(m, names);
  }

  /** getProperty(key): Optional.ofNullable of the stored value. */
  function GetProperty(m: Yaml, key: string): (r: Option<YamlValue>)
    ensures r.Some? <==> Present(m, key)
    ensures r.Some? ==> r.value == m[key]
  {
    if Present(m, key) then Some(m[key]) else None
  }

  /** getProperty(key, default): the stored value when non-null, else the default. The cast
      is unchecked, so a value of another type is returned as it is. */
  function GetPropertyOr(m: Yaml, key: string, default: YamlValue): (r: YamlValue)
    ensures Present(m, key) ==> r == m[key]
    ensures !Present(m, key) ==> r == default
  {
    if Present(m, key) then m[key] else default
  }

  /** hasProperty: containsKey. */
  function HasProperty(m: Yaml, key: string): (r: bool)
    ensures r <==> key in m
  {
    key in m
  }

  /** A key stored with a null value is reported present, yet both getters fall back to
      absent or the default; otherwise hasProperty agrees with getProperty. */
  lemma NullValueIsPresentButUnset(m: Yaml, key: string, default: YamlValue)
    ensures HasProperty(m, key) <==> GetProperty(m, key).Some? || (key in m && m[key] == YNull)
    ensures key in m && m[key] == YNull ==>
      HasProperty(m, key) && GetProperty(m, key) == None && GetPropertyOr(m, key, default) == default
  {
  }

  /** getAllProperties: a new map with the same entries. Map values cannot be changed through
      a copy here, so later changes to the copy leave the service's map as it was. */
  function AllProperties(m: Yaml): (r: Yaml)
    ensures r.Keys == m.Keys && forall k :: k in r ==> r[k] == m[k]
  {
    map k | k in m :: m[k]
  }
}
