/** The field oracle's path language, read back from the paths the structural comparison prints. */
module FieldPath {
  import opened Seqs
  import opened Text
  import opened JsonDiff

  // ---- the tokenizer --------------------------------------------------------------------------------------

  /** The characters `str.strip` removes. */
  predicate IsSpace(c: char) {
    var n := c as int;
    9 <= n <= 13 || 28 <= n <= 32 || n == 0x85 || n == 0xA0 || n == 0x1680 || 0x2000 <= n <= 0x200A
    || n == 0x2028 || n == 0x2029 || n == 0x202F || n == 0x205F || n == 0x3000
  }

  /** The white space, one by one. */
  lemma SpacesAre(c: char)
    ensures IsSpace(c) <==> c as int in {
              0x9, 0xA, 0xB, 0xC, 0xD, 0x1C, 0x1D, 0x1E, 0x1F, 0x20, 0x85, 0xA0, 0x1680, 0x2000, 0x2001, 0x2002, 0x2003,
              0x2004, 0x2005, 0x2006, 0x2007, 0x2008, 0x2009, 0x200A, 0x2028, 0x2029, 0x202F, 0x205F, 0x3000}
  {
  }

  predicate Special(c: char) {
    c == '.' || c == '[' || c == ']'
  }

  function StripRight(s: string): string {
    if s != [] && IsSpace(s[|s| - 1]) then StripRight(s[..|s| - 1]) else s
  }

  function StripLeft(s: string): string {
    if s != [] && IsSpace(s[0]) then StripLeft(s[1..]) else s
  }

  function Strip(s: string): string {
    StripLeft(StripRight(s))
  }

  /** The length of the leading run of key characters. */
  function KeyRun(s: string): (n: nat)
    ensures n <= |s| && forall k :: 0 <= k < n ==> !Special(s[k])
  {
    if s == "" || Special(s[0]) then 0 else 1 + KeyRun(s[1..])
  }

  function DigitRun(s: string): (n: nat)
    ensures n <= |s| && forall k :: 0 <= k < n ==> IsDigit(s[k])
  {
    if s == "" || !IsDigit(s[0]) then 0 else 1 + DigitRun(s[1..])
  }

  /** A match of `\.?([^.\[\]]+)|\[(\d+)\]` at the front: its token and its length. */
  datatype Match = Match(token: Place, length: nat) | NoMatch

  function MatchFront(s: string): (m: Match)
    requires s != ""
    ensures m.Match? ==> 0 < m.length <= |s|
  {
    var t := Dropped(s, '.');
    if KeyRun(t) > 0 then Match(Key(t[..KeyRun(t)]), |s| - |t| + KeyRun(t))
    else if s[0] == '[' then
      var digits := DigitRun(s[1..]);
      if digits > 0 && 1 + digits < |s| && s[1 + digits] == ']'
      then Match(Index(Value(s[1..][..digits])), 2 + digits)
      else NoMatch
    else NoMatch
  }

  /** `finditer`: the tokens of the successive matches; what does not match is passed over. */
  function Scan(s: string): seq<Place> {
    if s == "" then []
    else
      match MatchFront(s)
      case Match(token, length) => [token] + Scan(s[length..])
      case NoMatch => Scan(s[1..])
  }

  function Dropped(s: string, c: char): string {
    if s != [] && s[0] == c then s[1..] else s
  }

  function Tokens(fieldPath: string): seq<Place> {
    Scan(Dropped(Dropped(Strip(fieldPath), '$'), '.'))
  }

  method TokenizeFieldPath(fieldPath: string) returns (tokens: seq<Place>)
    ensures tokens == Tokens(fieldPath)
  {
    var path := Strip(fieldPath);
    if path != [] && path[0] == '$' {
      path := path[1..];
    }
    if path != [] && path[0] == '.' {
      path := path[1..];
    }
    tokens := [];
    var remaining := path;
    while remaining != ""
      invariant tokens + Scan(remaining) == Scan(path)
      decreases |remaining|
    {
      var m := MatchFront(remaining);
      if m.Match? {
        assert tokens + ([m.token] + Scan(remaining[m.length..])) == tokens + [m.token] + Scan(remaining[m.length..]);
        tokens := tokens + [m.token];
        remaining := remaining[m.length..];
      } else {
        remaining := remaining[1..];
      }
    }
  }

  /** `KeyError`, `IndexError` and `TypeError` are all failures to resolve. */
  method ResolveFieldPath(doc: Json, tokens: seq<Place>) returns (value: Option<Json>)
    ensures value == Resolve(doc, tokens)
  {
    var current := doc;
    for n := 0 to |tokens|
      invariant Resolve(doc, tokens) == Resolve(current, tokens[n..])
    {
      assert tokens[n..][1..] == tokens[n + 1..];
      match tokens[n]
      case Index(i) =>
        if !current.List? || i >= |current.items| {
          return None;
        }
        current := current.items[i];
      case Key(name) =>
        if !current.Dict? || name !in current.fields {
          return None;
        }
        current := current.fields[name];
    }
    assert tokens[|tokens|..] == [];
    return Some(current);
  }

  // ---- which paths read back ------------------------------------------------------------------------------

  predicate PlainKey(name: string) {
    name != "" && Plain(name)
  }

  predicate PlainKeys(path: seq<Place>) {
    forall i :: 0 <= i < |path| && path[i].Key? ==> PlainKey(path[i].name)
  }

  /** Keys are non-empty and free of `.`, `[` and `]`, and the path does not end in white space. */
  predicate Printable(path: seq<Place>) {
    PlainKeys(path) && (path != [] && path[|path| - 1].Key? ==> !IsSpace(path[|path| - 1].name[|path[|path| - 1].name| - 1]))
  }

  lemma {:induction false} ScannedKeys(s: string)
    ensures PlainKeys(Scan(s))
  {
    if s != "" {
      match MatchFront(s)
      case Match(token, length) => ScannedKeys(s[length..]);
      case NoMatch => ScannedKeys(s[1..]);
    }
  }

  /** What follows a key in a printed path: nothing, or something special. */
  predicate Ends(rest: string) {
    rest == "" || rest[0] == '.' || rest[0] == '[' || rest[0] == ']'
  }

  predicate Plain(name: string) {
    forall i :: 0 <= i < |name| ==> name[i] != '.' && name[i] != '[' && name[i] != ']'
  }

  lemma {:induction false} KeyRunOver(name: string, rest: string)
    requires Plain(name) && Ends(rest)
    ensures KeyRun(name + rest) == |name|
  {
    if name == "" {
      assert name + rest == rest;
    } else {
      KeyRunOver(name[1..], rest);
      assert (name + rest)[1..] == name[1..] + rest;
    }
  }

  lemma {:induction false} DigitRunOver(digits: string, rest: string)
    requires (forall i :: 0 <= i < |digits| ==> IsDigit(digits[i])) && rest != "" && !IsDigit(rest[0])
    ensures DigitRun(digits + rest) == |digits|
  {
    if digits == "" {
      assert digits + rest == rest;
    } else {
      DigitRunOver(digits[1..], rest);
      assert (digits + rest)[1..] == digits[1..] + rest;
    }
  }

  /** A key at the front of a path, with its dot or, at the very start, without it. */
  lemma MatchBare(name: string, rest: string)
    requires PlainKey(name) && Ends(rest)
    ensures name + rest != "" && MatchFront(name + rest) == Match(Key(name), |name|)
  {
    KeyRunOver(name, rest);
    assert (name + rest)[0] == name[0];
    assert (name + rest)[..|name|] == name;
  }

  lemma MatchKey(name: string, rest: string)
    requires PlainKey(name) && Ends(rest)
    ensures MatchFront("." + name + rest) == Match(Key(name), 1 + |name|)
  {
    KeyRunOver(name, rest);
    var s := "." + name + rest;
    assert s[1..] == name + rest;
    assert (name + rest)[..|name|] == name;
  }

  lemma MatchIndex(n: nat, rest: string)
    ensures MatchFront("[" + Decimal(n) + "]" + rest) == Match(Index(n), |Decimal(n)| + 2)
  {
    DecimalReads(n);
    MatchBracket(Decimal(n), rest);
  }

  lemma BracketAtFront(s: string, d: nat)
    requires s != "" && s[0] == '[' && d > 0 && DigitRun(s[1..]) == d && 1 + d < |s| && s[1 + d] == ']'
    ensures MatchFront(s) == Match(Index(Value(s[1..][..d])), d + 2)
  {
  }

  lemma Bracketed(digits: string, rest: string)
    ensures ("[" + digits + "]" + rest)[1..] == digits + ("]" + rest)
    ensures ("[" + digits + "]" + rest)[0] == '['
  {
    Associates("[" + digits, "]", rest);
    Associates("[", digits, "]" + rest);
    AfterFirst('[', digits + ("]" + rest));
  }

  lemma AfterFirst<T>(x: T, rest: seq<T>)
    ensures ([x] + rest)[1..] == rest && ([x] + rest)[0] == x
  {
  }

  lemma FirstApart<T>(a: seq<T>, b: seq<T>)
    requires a != []
    ensures a == [a[0]] + a[1..] && a + b == [a[0]] + (a[1..] + b)
  {
  }

  lemma MatchBracket(digits: string, rest: string)
    requires digits != "" && forall c :: c in digits ==> IsDigit(c)
    ensures MatchFront("[" + digits + "]" + rest) == Match(Index(Value(digits)), |digits| + 2)
  {
    var s, tail := "[" + digits + "]" + rest, "]" + rest;
    Bracketed(digits, rest);
    DigitRunOver(digits, tail);
    assert (digits + tail)[..|digits|] == digits;
    assert s[1 + |digits|] == s[1..][|digits|] == (digits + tail)[|digits|] == tail[0];
    BracketAtFront(s, |digits|);
  }

  lemma PrintedEnds(path: seq<Place>, after: string)
    requires after == "" || after == "."
    ensures Ends(PrintPath(path) + after)
  {
    if path != [] {
      assert (PrintPath(path) + after)[0] == PrintPlace(path[0])[0];
    }
  }

  lemma PrintedSplits(path: seq<Place>, after: string)
    requires path != []
    ensures PrintPath(path) + after == PrintPlace(path[0]) + (PrintPath(path[1..]) + after)
  {
    Associates(PrintPlace(path[0]), PrintPath(path[1..]), after);
  }

  lemma PlainRest(path: seq<Place>)
    requires PlainKeys(path) && path != []
    ensures PlainKeys(path[1..]) && (path[0].Key? ==> PlainKey(path[0].name)) && [path[0]] + path[1..] == path
  {
    var rest := path[1..];
    assert forall i :: 0 <= i < |rest| ==> rest[i] == path[i + 1];
  }

  lemma ScanNext(place: Place, front: string, rest: string)
    requires front != "" && MatchFront(front + rest) == Match(place, |front|)
    ensures Scan(front + rest) == [place] + Scan(rest)
  {
    assert (front + rest)[|front|..] == rest;
  }

  /** A printed path scans back; a dot left over at the end is no token. */
  lemma {:induction false} ScanPrinted(path: seq<Place>, after: string)
    requires PlainKeys(path) && (after == "" || after == ".")
    ensures Scan(PrintPath(path) + after) == path
    decreases |path|
  {
    if path == [] {
      ScanRemainder(after);
    } else {
      var rest := PrintPath(path[1..]) + after;
      PrintedSplits(path, after);
      PrintedEnds(path[1..], after);
      PlainRest(path);
      ScanPrinted(path[1..], after);
      match path[0]
      case Key(name) =>
        MatchKey(name, rest);
        ScanNext(path[0], "." + name, rest);
      case Index(n) =>
        MatchIndex(n, rest);
        ScanNext(path[0], "[" + Decimal(n) + "]", rest);
    }
  }

  lemma ScanRemainder(after: string)
    requires after == "" || after == "."
    ensures Scan("" + after) == []
  {
    assert "" + after == after;
    if after == "." {
      assert after[1..] == "" && Scan("") == [];
    }
  }

  lemma DropFromKey(name: string, rest: string)
    ensures Dropped("." + name + rest, '.') == name + rest
  {
    assert ("." + name + rest)[1..] == name + rest;
  }

  lemma DropFromIndex(digits: string, rest: string)
    ensures Dropped("[" + digits + "]" + rest, '.') == "[" + digits + "]" + rest
  {
    assert ("[" + digits + "]" + rest)[0] == '[';
  }

  /** The first dot of a printed path is dropped before scanning; the first key then stands without one. */
  lemma ScanAfterDrop(path: seq<Place>, after: string)
    requires PlainKeys(path) && (after == "" || after == ".")
    ensures Scan(Dropped(PrintPath(path) + after, '.')) == path
  {
    if path == [] {
      assert PrintPath(path) + after == after;
      assert Dropped(after, '.') == "";
    } else {
      var rest := PrintPath(path[1..]) + after;
      PrintedSplits(path, after);
      match path[0]
      case Key(name) =>
        DropFromKey(name, rest);
        ScanBareKey(path, after);
      case Index(n) =>
        DropFromIndex(Decimal(n), rest);
        ScanPrinted(path, after);
    }
  }

  lemma ScanBareKey(path: seq<Place>, after: string)
    requires PlainKeys(path) && path != [] && path[0].Key? && (after == "" || after == ".")
    ensures Scan(path[0].name + (PrintPath(path[1..]) + after)) == path
  {
    PrintedEnds(path[1..], after);
    PlainRest(path);
    ScanPrinted(path[1..], after);
    MatchBare(path[0].name, PrintPath(path[1..]) + after);
    ScanNext(path[0], path[0].name, PrintPath(path[1..]) + after);
  }

  lemma PrintCons(p: Place, rest: seq<Place>)
    ensures PrintPath([p] + rest) == PrintPlace(p) + PrintPath(rest)
  {
    assert ([p] + rest)[1..] == rest;
  }

  lemma {:induction false} PrintAppend(a: seq<Place>, b: seq<Place>)
    ensures PrintPath(a + b) == PrintPath(a) + PrintPath(b)
  {
    if a == [] {
      assert a + b == b;
      assert "" + PrintPath(b) == PrintPath(b);
    } else {
      var p, rest := a[0], a[1..];
      PrintAppend(rest, b);
      FirstApart(a, b);
      PrintCons(p, rest);
      PrintCons(p, rest + b);
      Associates(PrintPlace(p), PrintPath(rest), PrintPath(b));
    }
  }

  /** The last character of a printed path is that of its last key, or a bracket. */
  lemma LastPrinted(path: seq<Place>)
    requires path != []
    ensures var printed, last := PrintPath(path), PrintPlace(path[|path| - 1]);
            && printed == PrintPath(path[..|path| - 1]) + last && last != "" && printed != ""
            && printed[|printed| - 1] == last[|last| - 1]
  {
    var front, last := path[..|path| - 1], path[|path| - 1];
    LastApart(path);
    PrintAppend(front, [last]);
    PrintOne(last);
    LastOf(PrintPath(front), PrintPlace(last));
  }

  lemma LastApart<T>(a: seq<T>)
    requires a != []
    ensures a == a[..|a| - 1] + [a[|a| - 1]]
  {
  }

  lemma LastOf<T>(a: seq<T>, b: seq<T>)
    requires b != []
    ensures (a + b)[|a + b| - 1] == b[|b| - 1]
  {
  }

  lemma PrintOne(p: Place)
    ensures PrintPath([p]) == PrintPlace(p) && PrintPlace(p) != ""
  {
    assert [p][1..] == [];
  }

  lemma {:induction false} StripRightStops(s: string)
    requires s == "" || !IsSpace(s[|s| - 1])
    ensures StripRight(s) == s
  {
  }

  lemma StripsNone(s: string)
    requires s == "" || !IsSpace(s[|s| - 1])
    ensures Strip("$" + s) == "$" + s
  {
    if s != "" {
      LastOf("$", s);
    }
    StripRightStops("$" + s);
  }

  lemma EndsInNoSpace(path: seq<Place>)
    requires Printable(path)
    ensures PrintPath(path) == "" || !IsSpace(PrintPath(path)[|PrintPath(path)| - 1])
  {
    if path != [] {
      LastPrinted(path);
      LastPlaceEnds(path[|path| - 1]);
    }
  }

  lemma LastPlaceEnds(p: Place)
    requires p.Key? ==> PlainKey(p.name) && !IsSpace(p.name[|p.name| - 1])
    ensures PrintPlace(p) != "" && !IsSpace(PrintPlace(p)[|PrintPlace(p)| - 1])
  {
    match p
    case Key(name) => LastOf(".", name);
    case Index(i) => LastOf("[" + Decimal(i), "]");
  }

  lemma StripsNothing(path: seq<Place>)
    requires Printable(path)
    ensures Strip("$" + PrintPath(path)) == "$" + PrintPath(path)
  {
    EndsInNoSpace(path);
    StripsNone(PrintPath(path));
  }

  /** Every printable path tokenizes back to itself. */
  lemma PrintableReadsBack(path: seq<Place>)
    requires Printable(path)
    ensures Tokens("$" + PrintPath(path)) == path
  {
    var s := "$" + PrintPath(path);
    StripsNothing(path);
    assert Dropped(s, '$') == PrintPath(path);
    assert PrintPath(path) + "" == PrintPath(path);
    ScanAfterDrop(path, "");
  }

  // ---- and no others --------------------------------------------------------------------------------------

  lemma {:induction false} StripRightSplit(a: string, b: string)
    ensures StripRight(b) != "" ==> StripRight(a + b) == a + StripRight(b)
    ensures StripRight(b) == "" ==> StripRight(a + b) == StripRight(a)
    decreases |b|
  {
    if b == "" {
      assert a + b == a;
    } else if IsSpace(b[|b| - 1]) {
      StripRightSplit(a, b[..|b| - 1]);
      assert (a + b)[..|a + b| - 1] == a + b[..|b| - 1];
    }
  }

  lemma {:induction false} StripRightIsPrefix(s: string)
    ensures StripRight(s) <= s
    ensures StripRight(s) != "" ==> !IsSpace(StripRight(s)[|StripRight(s)| - 1])
    ensures s != "" && IsSpace(s[|s| - 1]) ==> |StripRight(s)| < |s|
  {
    if s != "" && IsSpace(s[|s| - 1]) {
      StripRightIsPrefix(s[..|s| - 1]);
    }
  }

  lemma PlainFront(path: seq<Place>)
    requires PlainKeys(path) && path != []
    ensures PlainKeys(path[..|path| - 1])
  {
    var front := path[..|path| - 1];
    assert forall i :: 0 <= i < |front| ==> front[i] == path[i];
  }

  /** `"$" + PrintPath(path)` with its last key split off. */
  lemma LastKeySplits(path: seq<Place>)
    requires path != [] && path[|path| - 1].Key?
    ensures "$" + PrintPath(path) == "$" + PrintPath(path[..|path| - 1]) + "." + path[|path| - 1].name
  {
    LastPrinted(path);
    var front, name := PrintPath(path[..|path| - 1]), path[|path| - 1].name;
    Associates("$", front, "." + name);
    Associates("$" + front, ".", name);
  }

  lemma StripKey(lead: string, name: string)
    requires lead != "" && !IsSpace(lead[0]) && !IsSpace(lead[|lead| - 1])
    ensures Strip(lead + name) == lead + StripRight(name)
  {
    StripRightSplit(lead, name);
    StripRightStops(lead);
    assert lead + "" == lead;
    assert (lead + StripRight(name))[0] == lead[0];
  }

  lemma StrippedPrinted(path: seq<Place>)
    requires path != [] && path[|path| - 1].Key?
    ensures Strip("$" + PrintPath(path))
         == "$" + PrintPath(path[..|path| - 1]) + "." + StripRight(path[|path| - 1].name)
  {
    var lead := "$" + PrintPath(path[..|path| - 1]) + ".";
    LastKeySplits(path);
    assert lead[0] == '$' && lead[|lead| - 1] == '.';
    StripKey(lead, path[|path| - 1].name);
  }

  /** A path whose last key ends in white space reads back with that key trimmed, or without it. */
  lemma TrailingSpaceIsLost(path: seq<Place>)
    requires PlainKeys(path) && !Printable(path)
    ensures Tokens("$" + PrintPath(path)) != path
  {
    var name := path[|path| - 1].name;
    StrippedPrinted(path);
    StripRightIsPrefix(name);
    if StripRight(name) == "" {
      LastKeyDropped(path[..|path| - 1], path);
    } else {
      TrimmedReads(path, StripRight(name));
    }
  }

  lemma LastKeyDropped(front: seq<Place>, path: seq<Place>)
    requires PlainKeys(path) && path != [] && front == path[..|path| - 1]
    ensures Scan(Dropped(Dropped("$" + PrintPath(front) + "." + "", '$'), '.')) != path
  {
    PlainFront(path);
    Associates("$", PrintPath(front), ".");
    assert "$" + PrintPath(front) + "." + "" == "$" + (PrintPath(front) + ".");
    AfterFirst('$', PrintPath(front) + ".");
    ScanAfterDrop(front, ".");
  }

  lemma TrimmedReads(path: seq<Place>, kept: string)
    requires PlainKeys(path) && path != [] && path[|path| - 1].Key? && kept != ""
    requires kept <= path[|path| - 1].name && |kept| < |path[|path| - 1].name|
    ensures Scan(Dropped(Dropped("$" + PrintPath(path[..|path| - 1]) + "." + kept, '$'), '.')) != path
  {
    var trimmed := path[..|path| - 1] + [Key(kept)];
    assert PlainKey(kept) by {
      assert PlainKey(path[|path| - 1].name);
      assert forall i :: 0 <= i < |kept| ==> kept[i] == path[|path| - 1].name[i];
    }
    PlainFront(path);
    assert PlainKeys(trimmed);
    LastKeySplits(trimmed);
    assert trimmed[..|trimmed| - 1] == path[..|path| - 1];
    assert Dropped("$" + PrintPath(trimmed), '$') == PrintPath(trimmed);
    assert PrintPath(trimmed) + "" == PrintPath(trimmed);
    ScanAfterDrop(trimmed, "");
    assert trimmed[|path| - 1] != path[|path| - 1];
  }

  /** A printed path tokenizes back to itself exactly when it is printable. */
  lemma ReadsBackIffPrintable(path: seq<Place>)
    ensures Tokens("$" + PrintPath(path)) == path <==> Printable(path)
  {
    if Printable(path) {
      PrintableReadsBack(path);
    } else if PlainKeys(path) {
      TrailingSpaceIsLost(path);
    } else {
      ScannedKeys(Dropped(Dropped(Strip("$" + PrintPath(path)), '$'), '.'));
    }
  }

  // ---- reported differences resolve -----------------------------------------------------------------------

  /** Every reported path of printable keys resolves to exactly the value reported on each side, and fails to
      resolve exactly where the report says the side is missing. */
  lemma ReportedPathsResolve(recorded: Json, live: Json, d: Diff)
    requires d in Diffs(recorded, live) && Printable(d.path)
    ensures var tokens := Tokens(Report("$", d).path);
            && Resolve(recorded, tokens) == d.recorded && Resolve(live, tokens) == d.live
            && Report("$", d).recorded == Shown(Resolve(recorded, tokens))
            && Report("$", d).live == Shown(Resolve(live, tokens))
  {
    DiffsAreAccurate(recorded, live);
    assert Accurate(recorded, live, d);
    PrintableReadsBack(d.path);
  }

  ghost predicate AllPrintable(ds: seq<Diff>) {
    forall d :: d in ds ==> Printable(d.path)
  }

  /** Where all paths are printable and no difference carries the sentinel's text, the report determines the
      differences. */
  lemma ReportDeterminesDiffs(ds: seq<Diff>, es: seq<Diff>)
    requires AllPrintable(ds) && AllPrintable(es) && FreeOfSentinel(ds) && FreeOfSentinel(es)
    requires Reports("$", ds) == Reports("$", es)
    ensures ds == es
  {
    forall i | 0 <= i < |ds| ensures |es| == |ds| && ds[i] == es[i] {
      assert |Reports("$", ds)| == |Reports("$", es)|;
      assert ds[i] in ds && es[i] in es;
      assert Report("$", ds[i]) == Reports("$", ds)[i] == Reports("$", es)[i] == Report("$", es[i]);
      PrintableReadsBack(ds[i].path);
      PrintableReadsBack(es[i].path);
    }
    assert |ds| == |Reports("$", ds)| == |es|;
  }

  // ---- the token grammar ----------------------------------------------------------------------------------

  /** A non-empty run of key characters at the front of `s`, after a dot or not, that nothing of its kind extends. */
  ghost predicate KeyForm(s: string, dot: string, name: string, rest: string) {
    s == dot + name + rest && (dot == "" || dot == ".") && PlainKey(name) && Ends(rest)
  }

  /** A bracketed number at the front of `s`. */
  ghost predicate IndexForm(s: string, digits: string, rest: string) {
    s == "[" + digits + "]" + rest && digits != "" && AllDigits(digits)
  }

  predicate AllDigits(digits: string) {
    forall c :: c in digits ==> IsDigit(c)
  }

  lemma {:induction false} KeyRunStops(s: string)
    ensures Ends(s[KeyRun(s)..]) && Plain(s[..KeyRun(s)])
  {
    if s != "" && !Special(s[0]) {
      KeyRunStops(s[1..]);
      assert s[1..][KeyRun(s[1..])..] == s[KeyRun(s)..];
    }
  }

  /** A key is matched exactly where one stands, as far as it goes, with its dot. */
  lemma KeyMatches(s: string, dot: string, name: string, rest: string)
    ensures KeyForm(s, dot, name, rest) ==> s != "" && MatchFront(s) == Match(Key(name), |dot| + |name|)
  {
    if KeyForm(s, dot, name, rest) {
      if dot == "" {
        assert dot + name + rest == name + rest;
        MatchBare(name, rest);
      } else {
        MatchKey(name, rest);
      }
    }
  }

  lemma KeyMatchForm(s: string)
    requires s != "" && MatchFront(s).Match? && MatchFront(s).token.Key?
    ensures var m := MatchFront(s);
            var t := Dropped(s, '.');
            KeyForm(s, s[..|s| - |t|], m.token.name, s[m.length..])
  {
    var t := Dropped(s, '.');
    var k := KeyRun(t);
    KeyRunStops(t);
    KeyParts(s, t, |s| - |t|, k);
    assert Plain(t[..k]) && t[..k] != "" && MatchFront(s).length == |s| - |t| + k;
    DotDropped(s, '.');
  }

  lemma KeyParts(s: string, t: string, n: nat, k: nat)
    requires n <= |s| && t == s[n..] && k <= |t|
    ensures s == s[..n] + t[..k] + s[n + k..] && t[k..] == s[n + k..]
  {
  }

  lemma DotDropped(s: string, c: char)
    ensures var t := Dropped(s, c);
            |t| <= |s| && t == s[|s| - |t|..] && (s[..|s| - |t|] == "" || s[..|s| - |t|] == [c])
  {
  }

  /** An index is matched exactly where a bracketed number stands. */
  lemma IndexMatches(s: string, digits: string, rest: string)
    ensures IndexForm(s, digits, rest) ==> s != "" && MatchFront(s) == Match(Index(Value(digits)), |digits| + 2)
  {
    if IndexForm(s, digits, rest) {
      MatchBracket(digits, rest);
    }
  }

  lemma IndexMatchForm(s: string)
    requires s != "" && MatchFront(s).Match? && MatchFront(s).token.Index?
    ensures MatchFront(s).length >= 2 && IndexForm(s, s[1..MatchFront(s).length - 1], s[MatchFront(s).length..])
  {
    var d := DigitRun(s[1..]);
    var digits := s[1..1 + d];
    assert digits == s[1..][..d];
    Rebracketed(s, d);
  }

  lemma Rebracketed(s: string, d: nat)
    requires 1 + d < |s| && s[0] == '[' && s[1 + d] == ']'
    ensures s == "[" + s[1..1 + d] + "]" + s[2 + d..]
  {
  }

  ghost predicate MatchesAt(s: string) {
    || (exists dot, name, rest :: KeyForm(s, dot, name, rest))
    || exists digits, rest :: IndexForm(s, digits, rest)
  }

  /** There is no match exactly where neither form stands. */
  lemma MatchIff(s: string)
    requires s != ""
    ensures MatchFront(s).Match? <==> MatchesAt(s)
  {
    if MatchFront(s).Match? {
      if MatchFront(s).token.Key? {
        KeyMatchForm(s);
      } else {
        IndexMatchForm(s);
      }
    }
    if dot, name, rest :| KeyForm(s, dot, name, rest) {
      KeyMatches(s, dot, name, rest);
    }
    if digits, rest :| IndexForm(s, digits, rest) {
      IndexMatches(s, digits, rest);
    }
  }

  /** No match begins in the first `k` characters. */
  ghost predicate Skips(s: string, k: nat) {
    forall j :: 0 <= j < k && j < |s| ==> !MatchesAt(s[j..])
  }

  lemma {:induction false} ScanSkips(s: string, k: nat)
    requires k <= |s| && Skips(s, k)
    ensures Scan(s) == Scan(s[k..])
  {
    if k > 0 {
      assert s[0..] == s;
      MatchIff(s);
      forall j | 0 <= j < k - 1 ensures s[1..][j..] == s[j + 1..] {
      }
      ScanSkips(s[1..], k - 1);
      assert s[1..][k - 1..] == s[k..];
    } else {
      assert s[k..] == s;
    }
  }

  /** The first token is that of the leftmost match, and the search goes on right behind it. */
  lemma LeftmostKey(s: string, k: nat, dot: string, name: string, rest: string)
    requires k <= |s| && Skips(s, k) && KeyForm(s[k..], dot, name, rest)
    ensures Scan(s) == [Key(name)] + Scan(rest)
  {
    ScanSkips(s, k);
    KeyMatches(s[k..], dot, name, rest);
    assert s[k..][|dot| + |name|..] == rest;
  }

  lemma LeftmostIndex(s: string, k: nat, digits: string, rest: string)
    requires k <= |s| && Skips(s, k) && IndexForm(s[k..], digits, rest)
    ensures Scan(s) == [Index(Value(digits))] + Scan(rest)
  {
    ScanSkips(s, k);
    IndexMatches(s[k..], digits, rest);
    assert s[k..][|digits| + 2..] == rest;
  }

  /** There are no tokens exactly where there is no match. */
  lemma NoTokensIff(s: string)
    ensures Scan(s) == [] <==> Skips(s, |s|)
  {
    if Skips(s, |s|) {
      ScanSkips(s, |s|);
    } else {
      var j := FirstMatch(s, |s|);
      ScanSkips(s, j);
      MatchIff(s[j..]);
    }
  }

  lemma {:induction false} FirstMatch(s: string, k: nat) returns (j: nat)
    requires k <= |s| && !Skips(s, k)
    ensures j < k && Skips(s, j) && MatchesAt(s[j..])
  {
    if Skips(s, k - 1) {
      j := k - 1;
    } else {
      j := FirstMatch(s, k - 1);
    }
  }

  // ---- trimming -------------------------------------------------------------------------------------------

  predicate AllSpace(s: string) {
    forall i :: 0 <= i < |s| ==> IsSpace(s[i])
  }

  predicate Trimmed(s: string) {
    s == "" || (!IsSpace(s[0]) && !IsSpace(s[|s| - 1]))
  }

  lemma {:induction false} StripRightOver(s: string, after: string)
    requires AllSpace(after)
    ensures StripRight(s + after) == StripRight(s)
  {
    if after == "" {
      assert s + after == s;
    } else {
      var n := |after| - 1;
      assert (s + after)[..|s + after| - 1] == s + after[..n];
      StripRightOver(s, after[..n]);
    }
  }

  lemma {:induction false} StripLeftOver(before: string, s: string)
    requires AllSpace(before)
    ensures StripLeft(before + s) == StripLeft(s)
  {
    if before == "" {
      assert before + s == s;
    } else {
      assert (before + s)[1..] == before[1..] + s;
      StripLeftOver(before[1..], s);
    }
  }

  /** What is left of `before + s + after` is `s`, where those are all white space and `s` neither begins nor ends with
      any. */
  lemma StripIs(before: string, s: string, after: string)
    requires AllSpace(before) && AllSpace(after) && Trimmed(s)
    ensures Strip(before + s + after) == s
  {
    StripRightOver(before + s, after);
    if s == "" {
      assert before + s == "" + before;
      StripRightOver("", before);
    } else {
      LastOf(before, s);
      StripLeftOver(before, s);
    }
  }

  // ---- paths a user writes --------------------------------------------------------------------------------

  /** The root sign is optional. */
  lemma RootIsOptional(path: seq<Place>)
    requires Printable(path)
    ensures Tokens(PrintPath(path)) == path
  {
    var s := PrintPath(path);
    EndsInNoSpace(path);
    PrintedStart(path);
    StripsClean(s);
    NotDropped(s, '$');
    assert s + "" == s;
    ScanAfterDrop(path, "");
  }

  lemma StripsClean(s: string)
    requires Trimmed(s)
    ensures Strip(s) == s
  {
    StripRightStops(s);
  }

  lemma NotDropped(s: string, c: char)
    requires s == "" || s[0] != c
    ensures Dropped(s, c) == s
  {
  }

  lemma PrintedStart(path: seq<Place>)
    ensures var s := PrintPath(path); s == "" || (s[0] == (if path[0].Key? then '.' else '[') && !IsSpace(s[0]))
  {
    if path != [] {
      PrintOne(path[0]);
      FirstOf(PrintPlace(path[0]), PrintPath(path[1..]));
    }
  }

  lemma FirstOf<T>(a: seq<T>, b: seq<T>)
    requires a != []
    ensures (a + b)[0] == a[0]
  {
  }

  /** So is the dot before a first key, unless that begins with white space or the root sign. */
  lemma FirstDotIsOptional(path: seq<Place>)
    requires Printable(path) && path != [] && path[0].Key? && !IsSpace(path[0].name[0]) && path[0].name[0] != '$'
    ensures Tokens(path[0].name + PrintPath(path[1..])) == path
  {
    var name, rest := path[0].name, PrintPath(path[1..]);
    var s := name + rest;
    assert PlainKey(name);
    FirstOf(name, rest);
    EndsInNoSpace(path);
    AfterDot(path);
    StripsClean(s);
    NotDropped(s, '$');
    NotDropped(s, '.');
    assert rest + "" == rest;
    ScanBareKey(path, "");
  }

  lemma AfterDot(path: seq<Place>)
    requires path != [] && path[0].Key? && path[0].name != ""
    ensures var printed, s := PrintPath(path), path[0].name + PrintPath(path[1..]);
            printed != "" && s != "" && printed[|printed| - 1] == s[|s| - 1]
  {
    Associates(".", path[0].name, PrintPath(path[1..]));
    LastOf(".", path[0].name + PrintPath(path[1..]));
  }

  /** The form a path has: `.a[0].b`. */
  lemma PrintedForm()
    ensures PrintPath([Key("a"), Index(0), Key("b")]) == ".a[0].b"
  {
    PrintOne(Key("b"));
    PrintedTail();
    PrintCons(Key("a"), [Index(0), Key("b")]);
    assert [Key("a")] + [Index(0), Key("b")] == [Key("a"), Index(0), Key("b")];
  }

  lemma PrintedTail()
    ensures PrintPath([Key("b")]) == ".b" ==> PrintPath([Index(0), Key("b")]) == "[0].b"
  {
    PrintCons(Index(0), [Key("b")]);
    assert [Index(0)] + [Key("b")] == [Index(0), Key("b")];
    assert Decimal(0) == "0";
  }
}
