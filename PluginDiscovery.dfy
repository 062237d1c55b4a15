/** The line-based reader of piston-core.yml in PluginDiscoveryServiceImpl: parseMetadata fills
    a PluginMetadata from "key: value" lines, extractValue reads one value, and
    parseStringList reads an inline "[a, b]" list. */
module PluginDiscovery {
  import opened Wrappers
  import opened JavaStrings
  import opened PluginMetadataModel

  /** The exception substring throws when its end index comes before its start. */
  const IndexOutOfBounds := "StringIndexOutOfBoundsException"

  predicate IsQuote(c: char) {
    c == '"' || c == '\''
  }

  // ---------------------------------------------------------------------------
  // extractValue
  // ---------------------------------------------------------------------------

  /** The trimmed text after the first ':' of a line that has one. */
  function AfterColon(line: string): string
    requires ':' in line
  {
    Trim(line[IndexOf(line, ':') + 1..])
  }

  /** startsWith and endsWith of the same one-character quote string, either kind. */
  predicate Quoted(v: string) {
    |v| >= 1 && ((v[0] == '"' && v[|v| - 1] == '"') || (v[0] == '\'' && v[|v| - 1] == '\''))
  }

  /** extractValue: "" without a colon; otherwise the trimmed text after the first colon, with
      one pair of matching double or single quotes removed. A value that is one quote
      character alone both starts and ends with it, and substring(1, 0) throws. */
  function ExtractValue(line: string): (r: Result<string, string>)
    ensures ':' !in line ==> r == Success("")
    ensures ':' in line ==> (r.Failure? <==> |AfterColon(line)| == 1 && IsQuote(AfterColon(line)[0]))
    ensures r.Failure? ==> r.error == IndexOutOfBounds
  {
    if IndexOf(line, ':') == -1 then Success("")
    else
      var v := AfterColon(line);
      if Quoted(v) then
        if |v| < 2 then Failure(IndexOutOfBounds) else Success(v[1..|v| - 1])
      else Success(v)
  }

  /** The first ':' of key + ":" + rest is the one after the key. */
  lemma ColonAfterKey(key: string, rest: string)
    requires ':' !in key
    ensures ':' in key + ":" + rest
    ensures IndexOf(key + ":" + rest, ':') == |key|
    ensures (key + ":" + rest)[|key| + 1..] == rest
  {
    var line := key + ":" + rest;
    assert line[|key|] == ':';
    assert forall j :: 0 <= j < |key| ==> line[j] == key[j];
    assert forall j :: |key| < j <= |line| ==> line[..j][|key|] == ':';
  }

  /** A quoted value comes back verbatim, whatever it holds. */
  lemma ExtractQuoted(key: string, v: string)
    requires ':' !in key
    ensures ExtractValue(key + ": \"" + v + "\"") == Success(v)
  {
    var w := "\"" + v + "\"";
    assert key + ": \"" + v + "\"" == key + ":" + (" " + w);
    ColonAfterKey(key, " " + w);
    TrimPadded(w);
    assert Quoted(w);
    assert w[1..|w| - 1] == v;
  }

  /** An unquoted value with no blank at either end comes back verbatim. */
  lemma ExtractPlain(key: string, v: string)
    requires ':' !in key
    requires v != [] && !Trimmable(v[0]) && !Trimmable(v[|v| - 1])
    requires !IsQuote(v[0])
    ensures ExtractValue(key + ": " + v) == Success(v)
  {
    assert key + ": " + v == key + ":" + (" " + v);
    ColonAfterKey(key, " " + v);
    TrimPadded(v);
    assert !Quoted(v);
  }

  // ---------------------------------------------------------------------------
  // parseStringList
  // ---------------------------------------------------------------------------

  /** replaceAll("^\"|\"$|^'|'$", ""): a quote character (either kind) at the start is
      removed, then one at the end; a lone quote character is removed once. */
  function StripQuotes(s: string): string {
    if |s| == 0 then s
    else if |s| == 1 then (if IsQuote(s[0]) then "" else s)
    else s[(if IsQuote(s[0]) then 1 else 0)..(if IsQuote(s[|s| - 1]) then |s| - 1 else |s|)]
  }

  /** One list item: trimmed, then stripped of its quotes. */
  function Item(raw: string): string {
    StripQuotes(Trim(raw))
  }

  function Items(raws: seq<string>): (r: seq<string>)
    ensures |r| == |raws| && forall i :: 0 <= i < |raws| ==> r[i] == Item(raws[i])
  {
    seq(|raws|, i requires 0 <= i < |raws| => Item(raws[i]))
  }

  lemma ItemsSnoc(raws: seq<string>, raw: string)
    ensures Items(raws + [raw]) == Items(raws) + [Item(raw)]
  {
    var a, b := Items(raws + [raw]), Items(raws) + [Item(raw)];
    forall i | 0 <= i < |a| ensures a[i] == b[i] {
      if i < |raws| {
        assert (raws + [raw])[i] == raws[i];
      } else {
        assert (raws + [raw])[i] == raw;
      }
    }
  }

  /** Quotes of either kind around an item are removed, even when they do not match. */
  lemma StripQuotesOfQuoted(v: string, open: char, close: char)
    requires IsQuote(open) && IsQuote(close)
    ensures StripQuotes([open] + v + [close]) == v
  {
    var s := [open] + v + [close];
    assert s[1..|s| - 1] == v;
  }

  /** An item that neither starts nor ends with a quote is kept as it is. */
  lemma StripQuotesOfUnquoted(v: string)
    requires v == [] || (!IsQuote(v[0]) && !IsQuote(v[|v| - 1]))
    ensures StripQuotes(v) == v
  {
    if |v| >= 2 {
      assert v[0..|v|] == v;
    }
  }

  /** The text between the first '[' and the first ']'; substring throws when that ']' comes
      before that '['. Without both brackets the list is empty. The items are the pieces of
      split(",") (limit 0), each trimmed and stripped of quotes. */
  function StringList(line: string): (r: Result<seq<string>, string>)
    ensures !('[' in line && ']' in line) ==> r == Success([])
    ensures r.Failure? <==> '[' in line && ']' in line && IndexOf(line, ']') < IndexOf(line, '[')
    ensures r.Failure? ==> r.error == IndexOutOfBounds
  {
    if '[' in line && ']' in line then
      var o, c := IndexOf(line, '['), IndexOf(line, ']');
      if c < o + 1 then Failure(IndexOutOfBounds)
      else Success(Items(Split(line[o + 1..c], {','}, false)))
    else Success([])
  }

  /** parseStringList; the array of all lines it is also given is not used. */
  method ParseStringList(line: string) returns (r: Result<seq<string>, string>)
    ensures r == StringList(line)
  {
    if '[' in line && ']' in line {
      var o, c := IndexOf(line, '['), IndexOf(line, ']');
      if c < o + 1 {
        return Failure(IndexOutOfBounds);
      }
      var pieces := Split(line[o + 1..c], {','}, false);
      var result: seq<string> := [];
      var i := 0;
      while i < |pieces|
        invariant 0 <= i <= |pieces|
        invariant result == Items(pieces[..i])
      {
        assert pieces[..i + 1] == pieces[..i] + [pieces[i]];
        ItemsSnoc(pieces[..i], pieces[i]);
        result := result + [Item(pieces[i])];
        i := i + 1;
      }
      assert pieces[..i] == pieces;
      r := Success(result);
    } else {
      r := Success([]);
    }
  }

  lemma {:induction false} NoneOfJoin(ps: seq<string>, c: char, bad: set<char>)
    requires c !in bad
    requires forall i :: 0 <= i < |ps| ==> NoneOf(ps[i], bad)
    ensures NoneOf(Join(ps, [c]), bad)
    decreases |ps|
  {
    if |ps| > 1 {
      NoneOfJoin(ps[1..], c, bad);
      var rest := Join(ps[1..], [c]);
      assert Join(ps, [c]) == ps[0] + [c] + rest;
      forall i | 0 <= i < |Join(ps, [c])| ensures Join(ps, [c])[i] !in bad {
        if i < |ps[0]| {
          assert Join(ps, [c])[i] == ps[0][i];
        } else if i > |ps[0]| {
          assert Join(ps, [c])[i] == rest[i - |ps[0]| - 1];
        }
      }
    }
  }

  /** The bracket positions of prefix + "[" + body + "]". */
  lemma BracketsAround(prefix: string, body: string)
    requires NoneOf(prefix, {'[', ']'}) && NoneOf(body, {']'})
    ensures var line := prefix + "[" + body + "]";
      '[' in line && ']' in line &&
      IndexOf(line, '[') == |prefix| && IndexOf(line, ']') == |prefix| + 1 + |body| &&
      line[|prefix| + 1..|prefix| + 1 + |body|] == body
  {
    var line := prefix + "[" + body + "]";
    var close := |prefix| + 1 + |body|;
    assert line[|prefix|] == '[' && line[close] == ']';
    assert forall j :: 0 <= j < |prefix| ==> line[j] == prefix[j];
    assert forall j :: |prefix| < j < close ==> line[j] == body[j - |prefix| - 1];
    assert forall j :: |prefix| < j <= |line| ==> line[..j][|prefix|] == '[';
    assert forall j :: close < j <= |line| ==> line[..j][close] == ']';
  }

  /** Round trip: the inline list written as prefix + "[" + items joined by "," + "]" reads
      back item by item, when no item holds ',' or a bracket and the last is not empty (an
      empty last piece would be dropped by split). */
  lemma StringListOfJoin(prefix: string, raws: seq<string>)
    requires NoneOf(prefix, {'[', ']'})
    requires |raws| >= 1
    requires forall i :: 0 <= i < |raws| ==> NoneOf(raws[i], {',', '[', ']'})
    requires |raws| == 1 || raws[|raws| - 1] != ""
    ensures StringList(prefix + "[" + Join(raws, ",") + "]") == Success(Items(raws))
  {
    var body := Join(raws, ",");
    forall i | 0 <= i < |raws| ensures NoneOf(raws[i], {']'}) && NoneOf(raws[i], {','}) {
      assert forall j :: 0 <= j < |raws[i]| ==> raws[i][j] !in {',', '[', ']'};
    }
    NoneOfJoin(raws, ',', {']'});
    BracketsAround(prefix, body);
    PiecesOfJoin(raws, ',');
    if |raws| == 1 {
      assert body == raws[0];
      assert FirstSep(body, {','}) == |body|;
    } else {
      assert DropTrailingEmpty(raws) == raws;
    }
  }

  /** "key: []" reads as a list holding one empty string. */
  lemma EmptyBracketsGiveOneEmptyItem(prefix: string)
    requires NoneOf(prefix, {'[', ']'})
    ensures StringList(prefix + "[]") == Success([""])
  {
    assert prefix + "[]" == prefix + "[" + "" + "]";
    BracketsAround(prefix, "");
    assert Split("", {','}, false) == [""];
    assert Trim("") == "";
    assert Items([""]) == [""];
  }

  /** The usual spelling "[a, 'b']": a space after each comma and quotes are both dropped. */
  lemma ItemOfSpacedQuoted(v: string, open: char, close: char)
    requires IsQuote(open) && IsQuote(close)
    ensures Item(" " + [open] + v + [close]) == v
  {
    var w := [open] + v + [close];
    assert " " + [open] + v + [close] == " " + w;
    TrimPadded(w);
    StripQuotesOfQuoted(v, open, close);
  }

  lemma ItemOfSpacedPlain(v: string)
    requires v != [] && !Trimmable(v[0]) && !Trimmable(v[|v| - 1])
    requires !IsQuote(v[0]) && !IsQuote(v[|v| - 1])
    ensures Item(" " + v) == v
  {
    TrimPadded(v);
    StripQuotesOfUnquoted(v);
  }

  // ---------------------------------------------------------------------------
  // parseMetadata
  // ---------------------------------------------------------------------------

  /** The keys parseMetadata recognises, in the order it tests them. */
  datatype Key = Name | Version | Description | Main | ApiVersion | Authors | Dependencies

  function Prefix(k: Key): string {
    match k
    case Name => "name:"
    case Version => "version:"
    case Description => "description:"
    case Main => "main:"
    case ApiVersion => "api-version:"
    case Authors => "authors:"
    case Dependencies => "dependencies:"
  }

  predicate IsListKey(k: Key) {
    k == Authors || k == Dependencies
  }

  /** The keys in the order parseMetadata checks them. */
  const KeyOrder: seq<Key> := [Name, Version, Description, Main, ApiVersion, Authors, Dependencies]

  lemma EveryKeyMatched(k: Key)
    ensures k in KeyOrder
  {
  }

  /** The first of keys whose prefix the line starts with. */
  function FirstKey(line: string, keys: seq<Key>): (r: Option<Key>)
    ensures r.Some? ==> r.value in keys && StartsWith(line, Prefix(r.value))
    ensures r.None? ==> forall k :: k in keys ==> !StartsWith(line, Prefix(k))
  {
    if keys == [] then None
    else if StartsWith(line, Prefix(keys[0])) then Some(keys[0])
    else FirstKey(line, keys[1..])
  }

  /** The key of a trimmed line: none for a blank line or a "#" comment, else the first key
      in test order whose prefix the line starts with; other lines are ignored. */
  function KeyOf(line: string): (r: Option<Key>)
    ensures r.Some? ==> line != "" && !StartsWith(line, "#") && StartsWith(line, Prefix(r.value))
    ensures r.None? && line != "" && !StartsWith(line, "#") ==> forall k :: !StartsWith(line, Prefix(k))
  {
    if line == "" || StartsWith(line, "#") then None
    else
      var r := FirstKey(line, KeyOrder);
      assert forall k :: k in KeyOrder by {
        forall k ensures k in KeyOrder {
          EveryKeyMatched(k);
        }
      }
      r
  }

  datatype FieldValue = TextValue(text: string) | ListValue(items: seq<string>)

  predicate Fits(k: Key, v: FieldValue) {
    IsListKey(k) <==> v.ListValue?
  }

  /** The value a keyed line sets: parseStringList for the two list keys, extractValue for
      the others. */
  function ValueOf(line: string, k: Key): (r: Result<FieldValue, string>)
    ensures r.Success? ==> Fits(k, r.value)
    ensures r.Failure? ==> r.error == IndexOutOfBounds
  {
    if IsListKey(k) then
      var l :- StringList(line);
      Success(ListValue(l))
    else
      var t :- ExtractValue(line);
      Success(TextValue(t))
  }

  /** The field of a key. */
  function Get(m: Metadata, k: Key): Option<FieldValue> {
    match k
    case Name => if m.name.Some? then Some(TextValue(m.name.value)) else None
    case Version => if m.version.Some? then Some(TextValue(m.version.value)) else None
    case Description => if m.description.Some? then Some(TextValue(m.description.value)) else None
    case Main => if m.mainClass.Some? then Some(TextValue(m.mainClass.value)) else None
    case ApiVersion => if m.apiVersion.Some? then Some(TextValue(m.apiVersion.value)) else None
    case Authors => if m.authors.Some? then Some(ListValue(m.authors.value)) else None
    case Dependencies => if m.dependencies.Some? then Some(ListValue(m.dependencies.value)) else None
  }

  /** The setter of a key. */
  function Put(m: Metadata, k: Key, v: FieldValue): (r: Metadata)
    requires Fits(k, v)
    ensures Get(r, k) == Some(v)
    ensures forall k' :: k' != k ==> Get(r, k') == Get(m, k')
  {
    match k
    case Name => m.(name := Some(v.text))
    case Version => m.(version := Some(v.text))
    case Description => m.(description := Some(v.text))
    case Main => m.(mainClass := Some(v.text))
    case ApiVersion => m.(apiVersion := Some(v.text))
    case Authors => m.(authors := Some(v.items))
    case Dependencies => m.(dependencies := Some(v.items))
  }

  /** What one line does to the record being filled. */
  datatype LineEffect = Skip | Assign(key: Key, value: FieldValue) | Throw(error: string)

  /** One turn of parseMetadata's loop: the line is trimmed; a blank line, a comment or a line
      of no known key is skipped; a keyed line sets its field, or throws. */
  function EffectOf(raw: string): (e: LineEffect)
    ensures e.Assign? ==> Fits(e.key, e.value)
    ensures Trim(raw) == "" || StartsWith(Trim(raw), "#") ==> e == Skip
    ensures e.Throw? ==> e.error == IndexOutOfBounds
  {
    var line := Trim(raw);
    var key := KeyOf(line);
    if key.None? then Skip
    else
      var v := ValueOf(line, key.value);
      if v.Success? then Assign(key.value, v.value) else Throw(v.error)
  }

  /** The setter call a line makes, or the exception it throws. */
  function Apply(m: Metadata, e: LineEffect): Result<Metadata, string> {
    match e
    case Skip => Success(m)
    case Assign(k, v) => if Fits(k, v) then Success(Put(m, k, v)) else Success(m)
    case Throw(err) => Failure(err)
  }

  /** The loop over the first n lines' effects, from a record with every field null. */
  function Replay(effects: seq<LineEffect>, n: nat): Result<Metadata, string>
    requires n <= |effects|
  {
    if n == 0 then Success(NoMetadata)
    else
      var prev := Replay(effects, n - 1);
      if prev.Failure? then prev else Apply(prev.value, effects[n - 1])
  }

  /** The effect of every line, in order. */
  function Effects(lines: seq<string>): (r: seq<LineEffect>)
    ensures |r| == |lines|
  {
    seq(|lines|, i requires 0 <= i < |lines| => EffectOf(lines[i]))
  }

  /** effects holds the effect of each line. */
  ghost predicate EffectsOf(effects: seq<LineEffect>, lines: seq<string>) {
    |effects| == |lines| &&
    forall j {:trigger EffectOf(lines[j])} :: 0 <= j < |lines| ==> effects[j] == EffectOf(lines[j])
  }

  lemma EffectsAreOfLines(lines: seq<string>)
    ensures EffectsOf(Effects(lines), lines)
  {
  }

  /** parseMetadata: split("\n"), then every line in turn. */
  function MetadataOf(content: string): Result<Metadata, string> {
    var effects := Effects(Split(content, {'\n'}, false));
    Replay(effects, |effects|)
  }

  /** parseMetadata throws iff some line throws, and then the exception is that of the first
      such line. */
  lemma {:induction false} ReplayFailsAtFirstThrow(effects: seq<LineEffect>, n: nat)
    requires n <= |effects|
    ensures Replay(effects, n).Success? <==> forall i :: 0 <= i < n ==> !effects[i].Throw?
    ensures Replay(effects, n).Failure? ==>
      exists i :: 0 <= i < n && effects[i].Throw? && Replay(effects, n).error == effects[i].error &&
                  forall j :: 0 <= j < i ==> !effects[j].Throw?
    decreases n
  {
    if n > 0 {
      ReplayFailsAtFirstThrow(effects, n - 1);
      var prev := Replay(effects, n - 1);
      assert Replay(effects, n) == if prev.Failure? then prev else Apply(prev.value, effects[n - 1]);
    }
  }

  /** The position of the last assignment to key k among the first n effects. */
  function LastAssign(effects: seq<LineEffect>, n: nat, k: Key): (r: Option<nat>)
    requires n <= |effects|
    ensures r.Some? ==> r.value < n && effects[r.value].Assign? && effects[r.value].key == k
    ensures r.Some? ==> forall j :: r.value < j < n ==> !(effects[j].Assign? && effects[j].key == k)
    ensures r.None? ==> forall j :: 0 <= j < n ==> !(effects[j].Assign? && effects[j].key == k)
  {
    if n == 0 then None
    else if effects[n - 1].Assign? && effects[n - 1].key == k then Some(n - 1)
    else LastAssign(effects, n - 1, k)
  }

  /** On success each field holds the value of the last line of its key (a later line
      overwrites an earlier one), and a key no line names stays null. */
  lemma {:induction false} LastOccurrenceWins(effects: seq<LineEffect>, n: nat, k: Key)
    requires n <= |effects|
    requires forall i :: 0 <= i < n && effects[i].Assign? ==> Fits(effects[i].key, effects[i].value)
    requires Replay(effects, n).Success?
    ensures var last := LastAssign(effects, n, k);
      (last.None? ==> Get(Replay(effects, n).value, k).None?) &&
      (last.Some? ==> Get(Replay(effects, n).value, k) == Some(effects[last.value].value))
    decreases n
  {
    if n > 0 {
      var prev := Replay(effects, n - 1);
      assert prev.Success?;
      assert Replay(effects, n) == Apply(prev.value, effects[n - 1]);
      if !(effects[n - 1].Assign? && effects[n - 1].key == k) {
        LastOccurrenceWins(effects, n - 1, k);
      }
    }
  }

  /** Once a line throws, the later lines do not change the outcome. */
  lemma {:induction false} ReplayStopsAtFailure(effects: seq<LineEffect>, i: nat, n: nat)
    requires i <= n <= |effects|
    requires Replay(effects, i).Failure?
    ensures Replay(effects, n) == Replay(effects, i)
    decreases n
  {
    if n > i {
      ReplayStopsAtFailure(effects, i, n - 1);
    }
  }

  lemma ReplayStep(effects: seq<LineEffect>, i: nat, m: Metadata)
    requires i < |effects| && Replay(effects, i) == Success(m)
    ensures Replay(effects, i + 1) == Apply(m, effects[i])
  {
  }

  /** parseMetadata: a new PluginMetadata filled line by line through its setters; an
      exception from extractValue or parseStringList ends the parse. */
  method ParseMetadata(content: string) returns (r: Result<PluginMetadata, string>)
    ensures r.Success? <==> MetadataOf(content).Success?
    ensures r.Success? ==> fresh(r.value) && r.value.Value() == MetadataOf(content).value
    ensures r.Failure? ==> r.error == MetadataOf(content).error
  {
    var md := new PluginMetadata();
    var lines := Split(content, {'\n'}, false);
    EffectsAreOfLines(lines);
    var err := ParseLines(md, lines, Effects(lines));
    r := if err.Some? then Failure(err.value) else Success(md);
  }

  /** The loop of parseMetadata over the lines, into a record with every field null. */
  method ParseLines(md: PluginMetadata, lines: seq<string>, ghost effects: seq<LineEffect>)
      returns (err: Option<string>)
    requires EffectsOf(effects, lines)
    requires md.Value() == NoMetadata
    modifies md
    ensures var spec := Replay(effects, |effects|);
      (err.None? <==> spec.Success?) &&
      (err.None? ==> md.Value() == spec.value) &&
      (err.Some? ==> err.value == spec.error)
  {
    var i := 0;
    while i < |lines|
      invariant 0 <= i <= |lines|
      invariant Replay(effects, i) == Success(md.Value())
    {
      err := ParseLine(md, lines, i, effects);
      if err.Some? {
        return;
      }
      i := i + 1;
    }
    err := None;
  }

  /** One turn of parseMetadata's loop, stated against the replay: the record advances by
      line i, or the whole parse fails with the exception this line throws. */
  method ParseLine(md: PluginMetadata, lines: seq<string>, i: nat, ghost effects: seq<LineEffect>)
      returns (err: Option<string>)
    requires EffectsOf(effects, lines) && i < |lines|
    requires Replay(effects, i) == Success(md.Value())
    modifies md
    ensures err.None? ==> Replay(effects, i + 1) == Success(md.Value())
    ensures err.Some? ==> Replay(effects, |effects|) == Failure(err.value)
  {
    ghost var before := md.Value();
    err := ApplyLine(md, lines[i], effects[i]);
    ReplayStep(effects, i, before);
    if err.Some? {
      ReplayStopsAtFailure(effects, i + 1, |effects|);
    }
  }

  /** The loop body of parseMetadata on one line: the setter call it makes, or the exception
      it throws. */
  method ApplyLine(md: PluginMetadata, raw: string, ghost e: LineEffect) returns (err: Option<string>)
    requires e == EffectOf(raw)
    modifies md
    ensures var r := Apply(old(md.Value()), e);
      (r.Success? ==> err.None? && md.Value() == r.value) &&
      (r.Failure? ==> err == Some(r.error))
  {
    var line := Trim(raw);
    var key := KeyOf(line);
    if key.Some? {
      var v := ReadValue(line, key.value);
      if v.Failure? {
        return Some(v.error);
      }
      SetField(md, key.value, v.value);
    }
    err := None;
  }

  /** The value call a keyed line makes: parseStringList for the list keys, extractValue for
      the others. */
  method ReadValue(line: string, k: Key) returns (r: Result<FieldValue, string>)
    ensures r == ValueOf(line, k)
  {
    if IsListKey(k) {
      var l := ParseStringList(line);
      r := if l.Failure? then Failure(l.error) else Success(ListValue(l.value));
    } else {
      var t := ExtractValue(line);
      r := if t.Failure? then Failure(t.error) else Success(TextValue(t.value));
    }
  }

  /** The setter call of a key. */
  method SetField(md: PluginMetadata, k: Key, v: FieldValue)
    requires Fits(k, v)
    modifies md
    ensures md.Value() == Put(old(md.Value()), k, v)
  {
    match k
    case Name => md.SetName(Some(v.text));
    case Version => md.SetVersion(Some(v.text));
    case Description => md.SetDescription(Some(v.text));
    case Main => md.SetMainClass(Some(v.text));
    case ApiVersion => md.SetApiVersion(Some(v.text));
    case Authors => md.SetAuthors(Some(v.items));
    case Dependencies => md.SetDependencies(Some(v.items));
  }
}
