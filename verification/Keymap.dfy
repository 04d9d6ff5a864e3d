/** Key chords: reading them, writing them, and the map of bindings resolved from
    the defaults and the user's file. */
module Keymap {
  import opened Strings
  import opened Wrappers

  datatype Chord = Chord(key: string, cmd: bool, shift: bool, alt: bool, ctrl: bool, prefix: bool)

  datatype ChordError = NoKey | UnknownModifier(name: string) | UnknownKey(name: string)

  const KEY_NAMES: seq<string> := [
    "enter", "escape", "tab", "backspace", "space", "delete", "left", "right", "up", "down", "home", "end",
    "pageup", "pagedown", "f1", "f2", "f3", "f4", "f5", "f6", "f7", "f8", "f9", "f10", "f11", "f12"]

  const PREFIX := "prefix "

  // ----- characters

  function LowerChar(c: char): char {
    if IsUpper(c) then (c as int + 32) as char else c
  }

  function Lower(s: string): (r: string)
    ensures |r| == |s|
  {
    seq(|s|, i requires 0 <= i < |s| => LowerChar(s[i]))
  }

  // ----- reading a chord

  function WithModifier(c: Chord, name: string): Result<Chord, ChordError> {
    if name == "cmd" || name == "command" || name == "super" then Ok(c.(cmd := true))
    else if name == "shift" then Ok(c.(shift := true))
    else if name == "alt" || name == "opt" || name == "option" then Ok(c.(alt := true))
    else if name == "ctrl" || name == "control" then Ok(c.(ctrl := true))
    else Err(UnknownModifier(name))
  }

  function WithModifiers(c: Chord, mods: seq<string>): Result<Chord, ChordError>
    decreases |mods|
  {
    if mods == [] then Ok(c)
    else
      var first := WithModifier(c, Lower(Trim(mods[0])));
      if first.Err? then first else WithModifiers(first.value, mods[1..])
  }

  function Renamed(name: string): string {
    if name == "return" then "enter" else if name == "esc" then "escape" else name
  }

  function WithKey(c: Chord, key: string): Result<Chord, ChordError> {
    if |key| == 1 then
      if IsUpper(key[0]) then Ok(c.(key := [LowerChar(key[0])], shift := true)) else Ok(c.(key := key))
    else
      var name := Renamed(Lower(key));
      if name in KEY_NAMES then Ok(c.(key := name)) else Err(UnknownKey(key))
  }

  function Parsed(text: string): Result<Chord, ChordError> {
    var t := Trim(text);
    var prefix := PREFIX <= t;
    var rest := if prefix then Trim(t[|PREFIX|..]) else t;
    if rest == "" then Err(NoKey)
    else
      var parts := Split(rest, '+');
      var c := WithModifiers(Chord("", false, false, false, false, prefix), parts[..|parts| - 1]);
      if c.Err? then c else WithKey(c.value, Trim(parts[|parts| - 1]))
  }

  method ParseChord(text: string) returns (r: Result<Chord, ChordError>)
    ensures r == Parsed(text)
  {
    hide WithModifier, Trim, Lower;
    var t := Trim(text);
    var prefix, rest := false, t;
    if PREFIX <= t {
      prefix, rest := true, Trim(t[|PREFIX|..]);
    }
    if rest == "" {
      return Err(NoKey);
    }
    var chord := Chord("", false, false, false, false, prefix);
    var parts := Split(rest, '+');
    var mods := parts[..|parts| - 1];
    ghost var start := chord;
    for i := 0 to |mods|
      invariant WithModifiers(start, mods) == WithModifiers(chord, mods[i..])
    {
      assert mods[i..][0] == mods[i] && mods[i..][1..] == mods[i + 1..];
      var next := WithModifier(chord, Lower(Trim(mods[i])));
      if next.Err? {
        return next;
      }
      chord := next.value;
    }
    var key := Trim(parts[|parts| - 1]);
    if |key| == 1 {
      if IsUpper(key[0]) {
        return Ok(chord.(key := [LowerChar(key[0])], shift := true));
      }
      return Ok(chord.(key := key));
    }
    var name := Lower(key);
    if name == "return" {
      name := "enter";
    } else if name == "esc" {
      name := "escape";
    }
    if name !in KEY_NAMES {
      return Err(UnknownKey(key));
    }
    r := Ok(chord.(key := name));
  }

  // ----- writing a chord

  function Modifiers(c: Chord): seq<string> {
    (if c.ctrl then ["ctrl"] else []) + (if c.alt then ["alt"] else [])
    + (if c.shift then ["shift"] else []) + (if c.cmd then ["cmd"] else [])
  }

  function Text(c: Chord): string {
    (if c.prefix then PREFIX else "") + Join(Modifiers(c) + [c.key], "+")
  }

  method ToText(c: Chord) returns (text: string)
    ensures text == Text(c)
  {
    var parts: seq<string> := [];
    if c.ctrl {
      parts := parts + ["ctrl"];
    }
    if c.alt {
      parts := parts + ["alt"];
    }
    if c.shift {
      parts := parts + ["shift"];
    }
    if c.cmd {
      parts := parts + ["cmd"];
    }
    assert parts == Modifiers(c);
    parts := parts + [c.key];
    var body := Join(parts, "+");
    text := if c.prefix then "prefix " + body else body;
  }

  // ----- the chords that can be read

  /** A character that can be a key of its own. */
  predicate IsKey(c: char) {
    !IsSpace(c) && !IsUpper(c) && c != '+'
  }

  /** A chord with a key that reading can produce. */
  predicate Readable(c: Chord) {
    (|c.key| == 1 && IsKey(c.key[0])) || c.key in KEY_NAMES
  }

  lemma {:induction false} ModifiersKeepKey(c: Chord, mods: seq<string>)
    requires WithModifiers(c, mods).Ok?
    ensures WithModifiers(c, mods).value.key == c.key && WithModifiers(c, mods).value.prefix == c.prefix
    decreases |mods|
  {
    if mods != [] {
      ModifiersKeepKey(WithModifier(c, Lower(Trim(mods[0]))).value, mods[1..]);
    }
  }

  lemma ReadingIsReadable(text: string)
    requires Parsed(text).Ok?
    ensures Readable(Parsed(text).value)
  {
    hide WithModifiers, IsSpace, Lower;
    var t := Trim(text);
    var rest := if PREFIX <= t then Trim(t[|PREFIX|..]) else t;
    SplitParts(rest, '+');
    var parts := Split(rest, '+');
    var key := Trim(parts[|parts| - 1]);
    if |key| == 1 {
      assert key[0] in key;
      if IsUpper(key[0]) {
        LoweredIsKey(key[0]);
      }
    }
  }

  lemma LoweredIsKey(c: char)
    requires IsUpper(c)
    ensures IsKey(LowerChar(c))
  {
  }

  /** A word of plain lower-case characters. */
  predicate IsPlain(s: string) {
    s != "" && forall i :: 0 <= i < |s| ==> IsKey(s[i])
  }

  predicate IsWord(s: string) {
    |s| >= 2 && forall i :: 0 <= i < |s| ==> 'a' <= s[i] <= 'z' || '0' <= s[i] <= '9'
  }

  lemma WordIsPlain(s: string)
    requires IsWord(s)
    ensures IsPlain(s)
  {
  }

  lemma KeyNamesAreWords(i: nat)
    requires i < |KEY_NAMES|
    ensures IsWord(KEY_NAMES[i])
  {
  }

  lemma KeyNamesArePlain()
    ensures forall i :: 0 <= i < |KEY_NAMES| ==> IsPlain(KEY_NAMES[i]) && |KEY_NAMES[i]| >= 2
    ensures "return" !in KEY_NAMES && "esc" !in KEY_NAMES
  {
    AliasesAreNoNames();
    hide IsPlain;
    forall i | 0 <= i < |KEY_NAMES| ensures IsPlain(KEY_NAMES[i]) && |KEY_NAMES[i]| >= 2 {
      KeyNamesAreWords(i);
      WordIsPlain(KEY_NAMES[i]);
    }
  }

  lemma AliasesAreNoNames()
    ensures "return" !in KEY_NAMES && "esc" !in KEY_NAMES
  {
  }

  lemma PlainIsKept(s: string)
    requires IsPlain(s)
    ensures Trim(s) == s && Lower(s) == s && '+' !in s && ' ' !in s
  {
    hide IsUpper;
    assert IsKey(s[0]) && IsKey(s[|s| - 1]);
  }

  // ----- reading undoes writing

  predicate AllPlain(parts: seq<string>) {
    forall i :: 0 <= i < |parts| ==> IsPlain(parts[i])
  }

  lemma {:induction false} JoinedHasNoSpace(parts: seq<string>)
    requires parts != [] && AllPlain(parts)
    ensures Join(parts, "+") != "" && forall i :: 0 <= i < |Join(parts, "+")| ==> !IsSpace(Join(parts, "+")[i])
    decreases |parts|
  {
    hide IsSpace, IsUpper;
    assert !IsSpace('+') by {
      PlusIsNoSpace();
    }
    if |parts| > 1 {
      JoinedHasNoSpace(parts[1..]);
    }
  }

  lemma PlusIsNoSpace()
    ensures !IsSpace('+') && IsSpace(' ') && !IsSpace('p')
  {
  }

  lemma KeyIsPlain(c: Chord)
    requires Readable(c)
    ensures IsPlain(c.key)
  {
    KeyNamesArePlain();
    hide IsKey;
  }

  lemma PlainParts(c: Chord)
    requires Readable(c)
    ensures AllPlain(Modifiers(c) + [c.key])
  {
    ModifierNames();
    KeyIsPlain(c);
    hide IsPlain, Readable;
  }

  lemma TakeIf(c: Chord, on: bool, name: string, rest: seq<string>)
    requires IsPlain(name) && WithModifier(c, name).Ok?
    ensures WithModifiers(c, (if on then [name] else []) + rest) ==
      WithModifiers(if on then WithModifier(c, name).value else c, rest)
  {
    hide WithModifier;
    PlainIsKept(name);
    if on {
      assert ([name] + rest)[1..] == rest;
    } else {
      assert [] + rest == rest;
    }
  }

  lemma ModifierNames()
    ensures IsPlain("ctrl") && IsPlain("alt") && IsPlain("shift") && IsPlain("cmd")
  {
  }

  lemma NamedModifiers(c: Chord)
    ensures WithModifier(c, "ctrl") == Ok(c.(ctrl := true)) && WithModifier(c, "alt") == Ok(c.(alt := true))
    ensures WithModifier(c, "shift") == Ok(c.(shift := true)) && WithModifier(c, "cmd") == Ok(c.(cmd := true))
  {
  }

  lemma ModifiersRead(c: Chord)
    ensures WithModifiers(Chord("", false, false, false, false, c.prefix), Modifiers(c)) == Ok(c.(key := ""))
  {
    hide WithModifiers, WithModifier, IsPlain;
    ModifierNames();
    var cmd := (if c.cmd then ["cmd"] else []) + [];
    var shift := (if c.shift then ["shift"] else []) + cmd;
    var alt := (if c.alt then ["alt"] else []) + shift;
    assert Modifiers(c) == (if c.ctrl then ["ctrl"] else []) + alt;
    var c0 := Chord("", false, false, false, false, c.prefix);
    NamedModifiers(c0);
    TakeIf(c0, c.ctrl, "ctrl", alt);
    var c1 := c0.(ctrl := c.ctrl);
    NamedModifiers(c1);
    TakeIf(c1, c.alt, "alt", shift);
    var c2 := c1.(alt := c.alt);
    NamedModifiers(c2);
    TakeIf(c2, c.shift, "shift", cmd);
    var c3 := c2.(shift := c.shift);
    NamedModifiers(c3);
    TakeIf(c3, c.cmd, "cmd", []);
    NoModifiers(c.(key := ""));
  }

  lemma NoModifiers(c: Chord)
    ensures WithModifiers(c, []) == Ok(c)
  {
  }

  lemma KeyRead(c: Chord, key: string)
    requires Readable(c.(key := key))
    ensures WithKey(c, key) == Ok(c.(key := key)) && IsPlain(key)
  {
    KeyNamesArePlain();
    if |key| != 1 {
      PlainIsKept(key);
    }
  }

  /** What reading makes of the text once it is trimmed and split. */
  lemma ReadParts(c: Chord, parts: seq<string>, text: string)
    requires Readable(c) && parts == Modifiers(c) + [c.key] && AllPlain(parts)
    requires text == (if c.prefix then PREFIX else "") + Join(parts, "+")
    requires Trim(text) == text && (c.prefix <==> PREFIX <= text)
    requires c.prefix ==> Trim(Join(parts, "+")) == Join(parts, "+")
    requires Split(Join(parts, "+"), '+') == parts && Join(parts, "+") != ""
    ensures Parsed(text) == Ok(c)
  {
    hide Join, Split, Trim, WithModifiers, WithKey, Modifiers, AllPlain, Readable;
    var body := Join(parts, "+");
    if c.prefix {
      assert text[|PREFIX|..] == body;
    } else {
      assert text == body;
    }
    assert parts[..|parts| - 1] == Modifiers(c) && parts[|parts| - 1] == c.key;
    ModifiersRead(c);
    assert c.(key := "").(key := c.key) == c;
    KeyRead(c.(key := ""), c.key);
    PlainIsKept(c.key);
  }

  lemma NotPrefixed(body: string)
    requires forall i :: 0 <= i < |body| ==> !IsSpace(body[i])
    ensures !(PREFIX <= body)
  {
    PlusIsNoSpace();
    assert PREFIX[6] == ' ';
    assert |body| >= 7 ==> body[6] != ' ';
  }

  /** Every chord that can be read is written so that it reads back the same. */
  lemma RoundTrip(c: Chord)
    requires Readable(c)
    ensures Parsed(Text(c)) == Ok(c)
  {
    hide Join, Split, Parsed, Readable, Trim, IsSpace, Modifiers;
    PlainParts(c);
    var parts := Modifiers(c) + [c.key];
    var body, text := Join(parts, "+"), Text(c);
    JoinedHasNoSpace(parts);
    PlusIsNoSpace();
    forall i | 0 <= i < |parts| ensures '+' !in parts[i] {
      PlainIsKept(parts[i]);
    }
    SplitJoin(parts, '+');
    assert ['+'] == "+";
    TrimmedIsKept(body);
    TrimmedIsKept(text);
    NotPrefixed(body);
    assert !c.prefix ==> text == body;
    ReadParts(c, parts, text);
  }

  /** Whatever text a chord was read from, its canonical spelling reads as the
      same chord; and so no two chords share a spelling. */
  lemma SpellingIsCanonical(text: string)
    requires Parsed(text).Ok?
    ensures Parsed(Text(Parsed(text).value)) == Parsed(text)
  {
    ReadingIsReadable(text);
    RoundTrip(Parsed(text).value);
  }

  lemma SpellingIsInjective(c: Chord, d: Chord)
    requires Readable(c) && Readable(d) && Text(c) == Text(d)
    ensures c == d
  {
    hide *;
    RoundTrip(c);
    RoundTrip(d);
  }

  // ----- what any text is read as

  /** A part without the blanks around it, in lower case. */
  function Word(part: string): string {
    Lower(Trim(part))
  }

  ghost predicate HasWord(parts: seq<string>, names: set<string>) {
    exists i :: 0 <= i < |parts| && Word(parts[i]) in names
  }

  lemma HasWordCons(part: string, rest: seq<string>, names: set<string>)
    ensures HasWord([part] + rest, names) <==> Word(part) in names || HasWord(rest, names)
  {
    hide Word;
    var all := [part] + rest;
    assert all[0] == part && forall i :: 0 <= i < |rest| ==> all[i + 1] == rest[i];
  }

  lemma HasNoWord(names: set<string>)
    ensures !HasWord([], names)
  {
  }

  /** Modifiers are read, whatever their number and order, exactly when each of them is
      one; the first that is none is reported. */
  lemma {:induction false} ModifiersSay(c: Chord, mods: seq<string>) returns (k: nat)
    ensures var names := {"cmd", "command", "super", "shift", "alt", "opt", "option", "ctrl", "control"};
      && k <= |mods| && (forall i :: 0 <= i < k ==> Word(mods[i]) in names)
      && (k < |mods| ==>
            Word(mods[k]) !in names && WithModifiers(c, mods) == Err(UnknownModifier(Word(mods[k]))))
    ensures k == |mods| ==>
      WithModifiers(c, mods) == Ok(Chord(c.key, c.cmd || HasWord(mods, {"cmd", "command", "super"}),
                                         c.shift || HasWord(mods, {"shift"}),
                                         c.alt || HasWord(mods, {"alt", "opt", "option"}),
                                         c.ctrl || HasWord(mods, {"ctrl", "control"}), c.prefix))
    decreases |mods|
  {
    hide Word, HasWord, WithModifier;
    if mods == [] {
      k := 0;
      HasNoWord({"cmd", "command", "super"});
      HasNoWord({"shift"});
      HasNoWord({"alt", "opt", "option"});
      HasNoWord({"ctrl", "control"});
    } else {
      var first := WithModifier(c, Word(mods[0]));
      WordIs(mods[0]);
      ModifierSays(c, Word(mods[0]));
      if first.Err? {
        k := 0;
      } else {
        k := ModifiersSay(first.value, mods[1..]);
        assert mods == [mods[0]] + mods[1..];
        HasWordCons(mods[0], mods[1..], {"cmd", "command", "super"});
        HasWordCons(mods[0], mods[1..], {"shift"});
        HasWordCons(mods[0], mods[1..], {"alt", "opt", "option"});
        HasWordCons(mods[0], mods[1..], {"ctrl", "control"});
        k := k + 1;
      }
    }
  }

  lemma ModifierSays(c: Chord, w: string)
    ensures var names := {"cmd", "command", "super", "shift", "alt", "opt", "option", "ctrl", "control"};
      WithModifier(c, w) ==
        if w !in names then Err(UnknownModifier(w))
        else Ok(Chord(c.key, c.cmd || w in {"cmd", "command", "super"}, c.shift || w in {"shift"},
                      c.alt || w in {"alt", "opt", "option"}, c.ctrl || w in {"ctrl", "control"}, c.prefix))
  {
  }

  lemma WordIs(part: string)
    ensures Word(part) == Lower(Trim(part))
  {
  }

  /** The text after the prefix, if it has one. */
  function Unprefixed(text: string): string {
    var t := Trim(text);
    if "prefix " <= t then Trim(t[7..]) else t
  }

  /** Every chord read from any text: the prefix if the text begins with it, each
      modifier exactly if some part names it, in any case and under any of its
      names, shift also for an upper-case letter, and the key that the last part
      names. */
  lemma ReadingSays(text: string)
    requires Parsed(text).Ok?
    ensures var c, parts := Parsed(text).value, Split(Unprefixed(text), '+');
      var mods, key := parts[..|parts| - 1], Trim(parts[|parts| - 1]);
      && (c.prefix <==> "prefix " <= Trim(text))
      && (c.cmd <==> HasWord(mods, {"cmd", "command", "super"}))
      && (c.alt <==> HasWord(mods, {"alt", "opt", "option"}))
      && (c.ctrl <==> HasWord(mods, {"ctrl", "control"}))
      && (c.shift <==> HasWord(mods, {"shift"}) || (|key| == 1 && 'A' <= key[0] <= 'Z'))
      && (|key| == 1 ==> c.key == Lower(key))
      && (|key| != 1 ==>
            && (Lower(key) == "return" <==> c.key == "enter" && Lower(key) != "enter")
            && (Lower(key) == "esc" <==> c.key == "escape" && Lower(key) != "escape")
            && (Lower(key) !in {"return", "esc"} ==> c.key == Lower(key)))
  {
    hide Split, Trim, WithModifiers, HasWord, WithKey, Lower;
    var t := Trim(text);
    var parts := Split(Unprefixed(text), '+');
    var start := Chord("", false, false, false, false, "prefix " <= t);
    var k := ModifiersSay(start, parts[..|parts| - 1]);
    KeySays(WithModifiers(start, parts[..|parts| - 1]).value, Trim(parts[|parts| - 1]));
  }

  lemma KeySays(c: Chord, key: string)
    requires WithKey(c, key).Ok?
    ensures var d := WithKey(c, key).value;
      && d.(key := "", shift := false) == c.(key := "", shift := false)
      && (d.shift <==> c.shift || (|key| == 1 && 'A' <= key[0] <= 'Z'))
      && (|key| == 1 ==> d.key == Lower(key))
      && (|key| != 1 ==>
            && (Lower(key) == "return" <==> d.key == "enter" && Lower(key) != "enter")
            && (Lower(key) == "esc" <==> d.key == "escape" && Lower(key) != "escape")
            && (Lower(key) !in {"return", "esc"} ==> d.key == Lower(key)))
  {
    AliasesAreNoNames();
  }

  /** Reading fails exactly on nothing, on a part that is no modifier, the first such
      reported, or on a last part that is no key. */
  lemma ReadingFails(text: string) returns (k: nat)
    ensures var rest := Unprefixed(text);
      var parts := Split(rest, '+');
      var mods, key := parts[..|parts| - 1], Trim(parts[|parts| - 1]);
      var names := {"cmd", "command", "super", "shift", "alt", "opt", "option", "ctrl", "control"};
      && (Parsed(text) == Err(NoKey) <==> rest == "")
      && k <= |mods| && (forall i :: 0 <= i < k ==> Word(mods[i]) in names)
      && (rest != "" && k < |mods| ==>
            Word(mods[k]) !in names && Parsed(text) == Err(UnknownModifier(Word(mods[k]))))
      && (rest != "" && k == |mods| && |key| != 1 && Lower(key) !in {"return", "esc"} && Lower(key) !in KEY_NAMES ==>
            Parsed(text) == Err(UnknownKey(key)))
      && (rest != "" && k == |mods| && (|key| == 1 || Lower(key) in {"return", "esc"} || Lower(key) in KEY_NAMES) ==>
            Parsed(text).Ok?)
  {
    var parts := Split(Unprefixed(text), '+');
    var start := Chord("", false, false, false, false, "prefix " <= Trim(text));
    hide Split, Trim, WithModifiers, WithKey, HasWord, Lower, Word;
    k := ModifiersSay(start, parts[..|parts| - 1]);
    if k == |parts| - 1 {
      KeyFails(WithModifiers(start, parts[..|parts| - 1]).value, Trim(parts[|parts| - 1]));
    }
  }

  lemma KeyFails(c: Chord, key: string)
    ensures var known := |key| == 1 || Lower(key) in {"return", "esc"} || Lower(key) in KEY_NAMES;
      if known then WithKey(c, key).Ok? else WithKey(c, key) == Err(UnknownKey(key))
  {
    EnterAndEscape();
    hide Lower;
  }

  lemma EnterAndEscape()
    ensures "enter" in KEY_NAMES && "escape" in KEY_NAMES
  {
    assert KEY_NAMES[0] == "enter" && KEY_NAMES[1] == "escape";
  }

  lemma LettersInLowerCase()
    ensures Lower("ABCDEFGHIJKLMNOPQRSTUVWXYZ") == "abcdefghijklmnopqrstuvwxyz"
    ensures forall c :: !('A' <= c <= 'Z') ==> LowerChar(c) == c
  {
  }

  /** The named keys: the function keys, those that move, and those that edit. */
  lemma NamedKeysAre(name: string)
    ensures name in KEY_NAMES <==>
      || name in {"left", "right", "up", "down", "home", "end", "pageup", "pagedown"}
      || name in {"enter", "escape", "tab", "backspace", "space", "delete"}
      || name in {"f1", "f2", "f3", "f4", "f5", "f6", "f7", "f8", "f9", "f10", "f11", "f12"}
  {
  }

  // ----- resolving bindings

  datatype Bound = Bound(action: string, source: string)

  /** One entry of a table or of the file. */
  datatype Entry = Entry(chord: string, bound: Bound)

  datatype Profile = Macos | Tmux | Both

  datatype BindingError = BadChord(error: ChordError) | UnknownAction(chord: string, action: string)

  const FILE := "keymap.toml"

  /** Keyed by spelling. */
  function BySpelling(entries: seq<Entry>): map<string, Bound> {
    if entries == [] then map[]
    else
      var before, last := BySpelling(entries[..|entries| - 1]), entries[|entries| - 1];
      var c := Parsed(last.chord);
      if c.Ok? then before[Text(c.value) := last.bound] else before
  }

  /** Keyed by chord, the last writer winning. */
  function ByChord(entries: seq<Entry>): map<Chord, Bound> {
    if entries == [] then map[]
    else
      var before, last := ByChord(entries[..|entries| - 1]), entries[|entries| - 1];
      var c := Parsed(last.chord);
      if c.Ok? then before[c.value := last.bound] else before
  }

  function ChordErrors(entries: seq<Entry>): seq<BindingError> {
    if entries == [] then []
    else
      var c := Parsed(entries[|entries| - 1].chord);
      ChordErrors(entries[..|entries| - 1]) + if c.Err? then [BadChord(c.error)] else []
  }

  /** The defaults that are in force for a profile. */
  function Defaults(profile: Profile, macos: seq<Entry>, tmux: seq<Entry>): seq<Entry> {
    (if profile.Tmux? then [] else macos) + (if profile.Macos? then [] else tmux)
  }

  /** The file's bindings to actions there are. */
  function Overrides(file: seq<(string, string)>, actions: set<string>): seq<Entry> {
    if file == [] then []
    else
      var last := file[|file| - 1];
      Overrides(file[..|file| - 1], actions) + if last.1 in actions then [Entry(last.0, Bound(last.1, FILE))] else []
  }

  /** What is wrong with the file, in the order of its keys. */
  function FileErrors(file: seq<(string, string)>, actions: set<string>): seq<BindingError> {
    if file == [] then []
    else
      var last := file[|file| - 1];
      var c := Parsed(last.0);
      FileErrors(file[..|file| - 1], actions)
      + if last.1 !in actions then [UnknownAction(last.0, last.1)] else if c.Err? then [BadChord(c.error)] else []
  }

  lemma {:induction false} ChordErrorsConcat(a: seq<Entry>, b: seq<Entry>)
    ensures ChordErrors(a + b) == ChordErrors(a) + ChordErrors(b)
    decreases |b|
  {
    hide Parsed;
    if b == [] {
      assert a + b == a;
    } else {
      ChordErrorsConcat(a, b[..|b| - 1]);
      assert (a + b)[..|a + b| - 1] == a + b[..|b| - 1];
    }
  }

  lemma BySpellingSnoc(entries: seq<Entry>, e: Entry)
    ensures var c := Parsed(e.chord);
      BySpelling(entries + [e]) == if c.Ok? then BySpelling(entries)[Text(c.value) := e.bound] else BySpelling(entries)
  {
    hide Parsed;
    assert (entries + [e])[..|entries|] == entries;
  }

  class Resolver {
    var bindings: map<string, Bound>
    var errors: seq<BindingError>

    constructor ()
      ensures bindings == map[] && errors == []
    {
      bindings, errors := map[], [];
    }

    method Add(e: Entry)
      modifies this
      ensures var c := Parsed(e.chord);
        && bindings == (if c.Ok? then old(bindings)[Text(c.value) := e.bound] else old(bindings))
        && errors == old(errors) + if c.Err? then [BadChord(c.error)] else []
    {
      var c := ParseChord(e.chord);
      match c
      case Ok(chord) =>
        var text := ToText(chord);
        bindings := bindings[text := e.bound];
      case Err(error) =>
        errors := errors + [BadChord(error)];
    }

    method AddTable(table: seq<Entry>, ghost before: seq<Entry>)
      requires bindings == BySpelling(before)
      modifies this
      ensures bindings == BySpelling(before + table)
      ensures errors == old(errors) + ChordErrors(table)
    {
      hide Parsed, BySpelling;
      assert before + table[..0] == before;
      for i := 0 to |table|
        invariant bindings == BySpelling(before + table[..i])
        invariant errors == old(errors) + ChordErrors(table[..i])
      {
        assert table[..i + 1][..i] == table[..i];
        assert before + table[..i + 1] == before + table[..i] + [table[i]];
        BySpellingSnoc(before + table[..i], table[i]);
        Add(table[i]);
      }
      assert table[..|table|] == table;
    }

    /** The file's entries, in the order of its keys. */
    method AddFile(file: seq<(string, string)>, actions: set<string>, ghost before: seq<Entry>)
      requires bindings == BySpelling(before)
      modifies this
      ensures bindings == BySpelling(before + Overrides(file, actions))
      ensures errors == old(errors) + FileErrors(file, actions)
    {
      FileNothing(actions);
      hide Parsed, BySpelling, Overrides, FileErrors;
      assert before + [] == before;
      for i := 0 to |file|
        invariant bindings == BySpelling(before + Overrides(file[..i], actions))
        invariant errors == old(errors) + FileErrors(file[..i], actions)
      {
        FileSnoc(file, actions, i);
        if file[i].1 !in actions {
          errors := errors + [UnknownAction(file[i].0, file[i].1)];
          assert Overrides(file[..i + 1], actions) == Overrides(file[..i], actions);
        } else {
          var e := Entry(file[i].0, Bound(file[i].1, FILE));
          BySpellingSnoc(before + Overrides(file[..i], actions), e);
          assert before + Overrides(file[..i + 1], actions) == before + Overrides(file[..i], actions) + [e];
          Add(e);
        }
      }
      assert file[..|file|] == file;
    }

    /** The defaults, and over them the file. */
    method Resolve(profile: Profile, own: Option<Profile>, macos: seq<Entry>, tmux: seq<Entry>,
                   file: seq<(string, string)>, actions: set<string>, prefixText: string) returns (prefix: string)
      requires bindings == map[] && errors == []
      modifies this
      ensures bindings ==
        BySpelling(Defaults(if own.Some? then own.value else profile, macos, tmux) + Overrides(file, actions))
      ensures errors ==
        ChordErrors(Defaults(if own.Some? then own.value else profile, macos, tmux)) + FileErrors(file, actions)
      ensures prefix == if Parsed(prefixText).Ok? then Text(Parsed(prefixText).value) else "ctrl+b"
    {
      NoEntries();
      hide Parsed, BySpelling, ChordErrors, Overrides, FileErrors, Text;
      var active := if own.Some? then own.value else profile;
      ghost var done: seq<Entry> := [];
      if active.Macos? || active.Both? {
        AddTable(macos, done);
        ChordErrorsConcat(done, macos);
        done := done + macos;
      }
      if active.Tmux? || active.Both? {
        AddTable(tmux, done);
        ChordErrorsConcat(done, tmux);
        done := done + tmux;
      }
      assert done == Defaults(active, macos, tmux);
      AddFile(file, actions, done);
      var p := ParseChord(prefixText);
      prefix := "ctrl+b";
      if p.Ok? {
        prefix := ToText(p.value);
      }
    }
  }

  /** The spellings bound to an action. */
  function Spellings(bindings: map<string, Bound>, action: string): set<string> {
    set t | t in bindings && bindings[t].action == action
  }

  /** The actions bound to several chords, with their spellings. */
  method Conflicts(bindings: map<string, Bound>) returns (conflicts: map<string, set<string>>)
    ensures forall a :: a in conflicts <==> |Spellings(bindings, a)| > 1
    ensures forall a :: a in conflicts ==> conflicts[a] == Spellings(bindings, a)
  {
    var byAction: map<string, set<string>> := map[];
    var left := bindings.Keys;
    while left != {}
      invariant left <= bindings.Keys
      invariant forall a :: a in byAction <==> exists t :: t in bindings && t !in left && bindings[t].action == a
      invariant forall a :: a in byAction ==> byAction[a] == set t | t in Spellings(bindings, a) && t !in left
      decreases left
    {
      var t :| t in left;
      var a := bindings[t].action;
      left := left - {t};
      byAction := byAction[a := (if a in byAction then byAction[a] else {}) + {t}];
    }
    conflicts := map a | a in byAction && |byAction[a]| > 1 :: byAction[a];
    forall a ensures a in conflicts <==> |Spellings(bindings, a)| > 1 {
      if a !in byAction {
        assert Spellings(bindings, a) == {};
      } else {
        assert byAction[a] == Spellings(bindings, a);
      }
    }
    forall a | a in conflicts ensures conflicts[a] == Spellings(bindings, a) {
    }
  }

  lemma FileNothing(actions: set<string>)
    ensures Overrides([], actions) == [] && FileErrors([], actions) == []
  {
  }

  lemma FileSnoc(file: seq<(string, string)>, actions: set<string>, i: nat)
    requires i < |file|
    ensures Overrides(file[..i + 1], actions) ==
      Overrides(file[..i], actions) + if file[i].1 in actions then [Entry(file[i].0, Bound(file[i].1, FILE))] else []
    ensures var c := Parsed(file[i].0);
      FileErrors(file[..i + 1], actions) == FileErrors(file[..i], actions)
      + if file[i].1 !in actions then [UnknownAction(file[i].0, file[i].1)]
        else if c.Err? then [BadChord(c.error)] else []
  {
    hide Parsed;
    assert file[..i + 1][..i] == file[..i];
  }

  lemma NoEntries()
    ensures BySpelling([]) == map[] && ChordErrors([]) == []
  {
  }

  // ----- what the map means

  /** The map keyed by spelling is the map keyed by chord, spelled out: no chord
      hides another. */
  lemma {:induction false} SpellingsAreChords(entries: seq<Entry>)
    ensures forall c :: c in ByChord(entries) ==> Readable(c)
    ensures forall c :: Readable(c) ==> (Text(c) in BySpelling(entries) <==> c in ByChord(entries))
    ensures forall c :: c in ByChord(entries) ==> BySpelling(entries)[Text(c)] == ByChord(entries)[c]
    ensures forall t :: t in BySpelling(entries) ==> exists c :: c in ByChord(entries) && Text(c) == t
  {
    hide Parsed, Text, Readable;
    if entries != [] {
      var init, last := entries[..|entries| - 1], entries[|entries| - 1];
      SpellingsAreChords(init);
      if Parsed(last.chord).Ok? {
        var d := Parsed(last.chord).value;
        ReadingIsReadable(last.chord);
        forall c | Readable(c) && Text(c) == Text(d) ensures c == d {
          SpellingIsInjective(c, d);
        }
        forall t | t in BySpelling(entries) ensures exists c :: c in ByChord(entries) && Text(c) == t {
          if t != Text(d) {
            var c :| c in ByChord(init) && Text(c) == t;
            assert c in ByChord(entries);
          } else {
            assert d in ByChord(entries);
          }
        }
      }
    }
  }

  /** The bound of a chord is that of the last entry that reads as it. */
  lemma {:induction false} LastWriterWins(entries: seq<Entry>, c: Chord) returns (i: nat)
    ensures c in ByChord(entries) <==> i < |entries|
    ensures i < |entries| ==> Parsed(entries[i].chord) == Ok(c) && ByChord(entries)[c] == entries[i].bound
    ensures forall j :: 0 <= j < |entries| && (i >= |entries| || j > i) ==> Parsed(entries[j].chord) != Ok(c)
  {
    hide Parsed;
    if entries == [] {
      i := 0;
    } else if Parsed(entries[|entries| - 1].chord) == Ok(c) {
      i := |entries| - 1;
    } else {
      i := LastWriterWins(entries[..|entries| - 1], c);
      if i == |entries| - 1 {
        i := |entries|;
      }
    }
  }

  /** Several spellings of an action are several chords. */
  lemma ConflictsAreChords(entries: seq<Entry>, action: string)
    ensures |Spellings(BySpelling(entries), action)| > 1 <==>
      exists c, d :: c != d && BoundTo(entries, c, action) && BoundTo(entries, d, action)
  {
    hide Parsed, Text, Readable, BySpelling, ByChord;
    SpellingsAreChords(entries);
    var texts := Spellings(BySpelling(entries), action);
    if |texts| > 1 {
      var s, t := TwoOf(texts);
      var c :| c in ByChord(entries) && Text(c) == s;
      var d :| d in ByChord(entries) && Text(d) == t;
      assert BoundTo(entries, c, action) && BoundTo(entries, d, action);
    }
    if c, d :| c != d && BoundTo(entries, c, action) && BoundTo(entries, d, action) {
      if Text(c) == Text(d) {
        SpellingIsInjective(c, d);
      }
      assert {Text(c), Text(d)} <= texts;
      SubsetSize({Text(c), Text(d)}, texts);
    }
  }

  ghost predicate BoundTo(entries: seq<Entry>, c: Chord, action: string) {
    c in ByChord(entries) && ByChord(entries)[c].action == action
  }

  lemma TwoOf<T>(s: set<T>) returns (a: T, b: T)
    requires |s| > 1
    ensures a in s && b in s && a != b
  {
    a :| a in s;
    assert |s - {a}| == |s| - 1;
    b :| b in s - {a};
  }

  lemma {:induction false} SubsetSize<T>(small: set<T>, large: set<T>)
    requires small <= large
    ensures |small| <= |large|
  {
    if small != {} {
      var x :| x in small;
      SubsetSize(small - {x}, large - {x});
      assert |small - {x}| == |small| - 1 && |large - {x}| == |large| - 1;
    }
  }

  lemma {:induction false} ByChordConcat(a: seq<Entry>, b: seq<Entry>)
    ensures ByChord(a + b) == ByChord(a) + ByChord(b)
    decreases |b|
  {
    hide Parsed;
    if b == [] {
      assert a + b == a;
    } else {
      ByChordConcat(a, b[..|b| - 1]);
      assert (a + b)[..|a + b| - 1] == a + b[..|b| - 1];
    }
  }

  lemma {:induction false} OverridesAreFromFile(file: seq<(string, string)>, actions: set<string>)
    ensures forall i :: 0 <= i < |Overrides(file, actions)| ==>
      Overrides(file, actions)[i].bound.source == FILE && Overrides(file, actions)[i].bound.action in actions
  {
    if file != [] {
      OverridesAreFromFile(file[..|file| - 1], actions);
    }
  }

  lemma {:induction false} OverridesHave(file: seq<(string, string)>, actions: set<string>, k: nat)
    requires k < |file| && file[k].1 in actions
    ensures Entry(file[k].0, Bound(file[k].1, FILE)) in Overrides(file, actions)
  {
    if k < |file| - 1 {
      OverridesHave(file[..|file| - 1], actions, k);
    }
  }

  /** A chord that the file binds to an action there is belongs to the file, and
      every other chord keeps its default. */
  lemma FileOverridesDefaults(defaults: seq<Entry>, file: seq<(string, string)>, actions: set<string>, c: Chord)
    requires Readable(c)
    ensures var m, overrides := BySpelling(defaults + Overrides(file, actions)), ByChord(Overrides(file, actions));
      && (c in overrides ==> Text(c) in m && m[Text(c)] == overrides[c] && m[Text(c)].source == "keymap.toml")
      && (c !in overrides ==>
            && (Text(c) in m <==> c in ByChord(defaults))
            && (c in ByChord(defaults) ==> m[Text(c)] == ByChord(defaults)[c]))
    ensures (exists k :: 0 <= k < |file| && file[k].1 in actions && Parsed(file[k].0) == Ok(c)) ==>
      c in ByChord(Overrides(file, actions))
  {
    hide Parsed, Text, Readable, BySpelling, ByChord, Overrides;
    var overrides := Overrides(file, actions);
    SpellingsAreChords(defaults + overrides);
    ByChordConcat(defaults, overrides);
    OverridesAreFromFile(file, actions);
    var i := LastWriterWins(overrides, c);
    if k :| 0 <= k < |file| && file[k].1 in actions && Parsed(file[k].0) == Ok(c) {
      OverridesHave(file, actions, k);
      var e := Entry(file[k].0, Bound(file[k].1, FILE));
      var j :| 0 <= j < |overrides| && overrides[j] == e;
    }
  }

  /** One profile has one table, the other the other; with both, a chord in the second
      is bound as it says, and the first decides the rest. */
  lemma ProfileDecides(macos: seq<Entry>, tmux: seq<Entry>, c: Chord)
    ensures ByChord(Defaults(Macos, macos, tmux)) == ByChord(macos)
    ensures ByChord(Defaults(Tmux, macos, tmux)) == ByChord(tmux)
    ensures var both := ByChord(Defaults(Both, macos, tmux));
      && (c in ByChord(tmux) ==> c in both && both[c] == ByChord(tmux)[c])
      && (c !in ByChord(tmux) ==> (c in both <==> c in ByChord(macos)))
      && (c !in ByChord(tmux) && c in ByChord(macos) ==> both[c] == ByChord(macos)[c])
  {
    hide ByChord;
    assert macos + [] == macos && [] + tmux == tmux;
    ByChordConcat(macos, tmux);
  }

  /** Every entry of the file is either bound or reported, in the order of its keys: an
      action there is none of before a chord that cannot be read. */
  lemma FileIsBoundOrReported(file: seq<(string, string)>, actions: set<string>, k: nat)
    requires k < |file|
    ensures |FileErrors(file[..k + 1], actions)| <= |FileErrors(file[..k], actions)| + 1
    ensures file[k].1 !in actions ==>
      FileErrors(file[..k + 1], actions) == FileErrors(file[..k], actions) + [UnknownAction(file[k].0, file[k].1)]
    ensures file[k].1 in actions && Parsed(file[k].0).Err? ==>
      FileErrors(file[..k + 1], actions) == FileErrors(file[..k], actions) + [BadChord(Parsed(file[k].0).error)]
    ensures file[k].1 in actions && Parsed(file[k].0).Ok? ==>
      && FileErrors(file[..k + 1], actions) == FileErrors(file[..k], actions)
      && ByChord(Overrides(file[..k + 1], actions)) ==
           ByChord(Overrides(file[..k], actions))[Parsed(file[k].0).value := Bound(file[k].1, "keymap.toml")]
    ensures !(file[k].1 in actions && Parsed(file[k].0).Ok?) ==>
      ByChord(Overrides(file[..k + 1], actions)) == ByChord(Overrides(file[..k], actions))
  {
    FileSnoc(file, actions, k);
    hide Parsed, Overrides, FileErrors, ByChord;
    var before := Overrides(file[..k], actions);
    if file[k].1 in actions {
      ByChordSnoc(before, Entry(file[k].0, Bound(file[k].1, FILE)));
    } else {
      assert before + [] == before;
    }
  }

  lemma ByChordSnoc(entries: seq<Entry>, e: Entry)
    ensures var c := Parsed(e.chord);
      ByChord(entries + [e]) == if c.Ok? then ByChord(entries)[c.value := e.bound] else ByChord(entries)
  {
    hide Parsed;
    assert (entries + [e])[..|entries|] == entries;
  }
}
