/** Lists of keys as comma-separated text: joined and split in Python, parsed and joined again natively. */
module KeyCodecs {
  import opened Wrappers

  const MAX_KEYS: nat := 4
  const MAX_LENGTH: nat := 32

  const NAMED: seq<string> := [
    "ctrl", "shift", "alt", "meta", "enter", "escape", "tab", "space", "backspace", "delete",
    "up", "down", "left", "right"]

  function Decimal(n: nat): string {
    (if n < 10 then "" else Decimal(n / 10)) + ['0' + (n % 10) as char]
  }

  function IsDigit(c: char): bool {
    '0' <= c <= '9'
  }

  function Digits(s: string, value: nat): nat {
    if s == "" || !IsDigit(s[0]) then value else Digits(s[1..], 10 * value + (s[0] - '0') as nat)
  }

  function SkipSpace(s: string): string {
    if s != "" && (s[0] == ' ' || '\t' <= s[0] <= '\r') then SkipSpace(s[1..]) else s
  }

  /** std::stoi: white space, a sign, digits, and then anything; None is an exception. */
  function ToInt(s: string): Option<int> {
    var t := SkipSpace(s);
    var u := if t != "" && (t[0] == '-' || t[0] == '+') then t[1..] else t;
    if u == "" || !IsDigit(u[0]) then None
    else
      var n := if t[0] == '-' then -(Digits(u, 0) as int) else Digits(u, 0);
      if -0x8000_0000 <= n < 0x8000_0000 then Some(n) else None
  }

  /** The native check of one key. */
  predicate ValidKey(key: string) {
    || key in NAMED
    || (|key| == 1 && ('a' <= key[0] <= 'z' || IsDigit(key[0])))
    || (|key| >= 2 && key[0] == 'f' &&
        var number := ToInt(key[1..]);
        number.Some? && 1 <= number.value <= 12 && key == "f" + Decimal(number.value))
  }

  /** The keys that Python allows. */
  ghost predicate AllowedKey(key: string) {
    || key in NAMED
    || (exists c :: 'a' <= c <= 'z' && key == [c])
    || (exists n :: 0 <= n < 10 && key == Decimal(n))
    || (exists n :: 1 <= n < 13 && key == "f" + Decimal(n))
  }

  lemma ToIntOfDecimal(n: nat)
    requires n <= 12
    ensures ToInt(Decimal(n)) == Some(n) && |Decimal(n)| >= 1
  {
    if n < 10 {
      var s := Decimal(n);
      assert s == ['0' + n as char];
      assert s[1..] == "";
      assert Digits(s, 0) == Digits(s[1..], n);
    } else {
      var s := Decimal(n);
      assert Decimal(n / 10) == ['1'];
      assert s == ['1', '0' + (n % 10) as char];
      assert s[1..] == ['0' + (n % 10) as char] && s[1..][1..] == "";
      assert Digits(s, 0) == Digits(s[1..], 1) == Digits(s[1..][1..], n);
    }
  }

  /** Both sides know the same keys. */
  lemma AlphabetsAgree(key: string)
    ensures AllowedKey(key) <==> ValidKey(key)
  {
    if n :| 1 <= n < 13 && key == "f" + Decimal(n) {
      ToIntOfDecimal(n);
      assert key[1..] == Decimal(n);
    }
    if |key| == 1 && IsDigit(key[0]) {
      var n := (key[0] - '0') as int;
      assert key == Decimal(n);
    }
    if |key| == 1 && 'a' <= key[0] <= 'z' {
      assert key == [key[0]];
    }
  }

  /** A valid key is neither empty nor contains a comma. */
  ghost predicate Plain(key: string) {
    key != "" && ',' !in key
  }

  lemma ValidIsPlain(key: string)
    requires ValidKey(key)
    ensures Plain(key)
  {
    AlphabetsAgree(key);
    if n :| 1 <= n < 13 && key == "f" + Decimal(n) {
      DecimalIsPlain(n);
    }
  }

  lemma {:induction false} DecimalIsPlain(n: nat)
    ensures Plain(Decimal(n))
  {
    if n >= 10 {
      DecimalIsPlain(n / 10);
    }
  }

  function Join(keys: seq<string>): string {
    if keys == [] then ""
    else if |keys| == 1 then keys[0]
    else keys[0] + "," + Join(keys[1..])
  }

  /** The index of the first comma, or the length if there is none. */
  function Comma(s: string): (i: nat)
    ensures i <= |s| && ',' !in s[..i] && (i < |s| ==> s[i] == ',')
  {
    if s == "" || s[0] == ',' then 0
    else
      var i := Comma(s[1..]) + 1;
      assert s[..i] == [s[0]] + s[1..][..i - 1];
      i
  }

  /** str.split(","): one part more than there are commas. */
  function Split(s: string): seq<string>
    decreases |s|
  {
    var i := Comma(s);
    if i == |s| then [s] else [s[..i]] + Split(s[i + 1..])
  }

  /** The parts that native code sees: nothing follows a comma at the end. */
  function Tokens(s: string): seq<string>
    decreases |s|
  {
    var i := Comma(s);
    if s == "" then [] else if i == |s| then [s] else [s[..i]] + Tokens(s[i + 1..])
  }

  lemma TokensStep(s: string)
    requires s != ""
    ensures var i := Comma(s);
            Tokens(s) == [s[..i]] + Tokens(if i == |s| then "" else s[i + 1..])
  {
    assert s[..|s|] == s && Tokens("") == [];
  }

  lemma JoinStep(keys: seq<string>)
    requires |keys| > 1
    ensures Join(keys) == keys[0] + "," + Join(keys[1..])
  {}

  lemma JoinOne(key: string)
    ensures Join([key]) == key
  {}

  lemma SplitStep(s: string)
    ensures var i := Comma(s); Split(s) == if i == |s| then [s] else [s[..i]] + Split(s[i + 1..])
    ensures Tokens("") == [] && Split("") == [""] && Join([s]) == s && Join([]) == ""
  {}

  ghost predicate AllPlain(keys: seq<string>) {
    forall i | 0 <= i < |keys| :: Plain(keys[i])
  }

  lemma CommaAfter(key: string, rest: string)
    requires ',' !in key
    ensures Comma(key + "," + rest) == |key| && Comma(key) == |key|
  {
    var s := key + "," + rest;
    assert forall k | 0 <= k < |key| :: s[k] in key && key[k] in key;
    assert forall k | |key| < k <= |s| :: s[..k][|key|] == ',';
  }

  /** Joined keys are split into the same keys, by either side. */
  lemma {:induction false} JoinedIsSplit(keys: seq<string>)
    requires keys != [] && AllPlain(keys)
    ensures Split(Join(keys)) == keys && Tokens(Join(keys)) == keys && Tokens(Join(keys) + ",") == keys
  {
    var s := Join(keys);
    if |keys| == 1 {
      CommaAfter(keys[0], "");
      assert keys[0] + "," + "" == s + ",";
      assert Tokens(s + ",") == [(s + ",")[..|s|]] + Tokens("");
    } else {
      var rest := Join(keys[1..]);
      CommaAfter(keys[0], rest);
      CommaAfter(keys[0], rest + ",");
      JoinedIsSplit(keys[1..]);
      assert s[|keys[0]| + 1..] == rest && s[..|keys[0]|] == keys[0];
      var t := s + ",";
      assert t == keys[0] + "," + (rest + ",");
      assert t[|keys[0]| + 1..] == rest + "," && t[..|keys[0]|] == keys[0];
    }
  }

  /** A text has the tokens of its keys, with or without a comma at the end, and no others. */
  lemma {:induction false} TokensAreJoined(s: string)
    requires s != ""
    ensures Tokens(s) != [] && (s == Join(Tokens(s)) || s == Join(Tokens(s)) + ",")
    decreases |s|
  {
    hide Join, Tokens, Comma;
    var i := Comma(s);
    TokensStep(s);
    SplitStep(s);
    if i == |s| {
      assert s[..i] == s && Tokens(s) == [s];
    } else {
      var rest := s[i + 1..];
      var first := s[..i];
      assert s == first + "," + rest;
      if rest == "" {
        JoinOne(first);
        assert Tokens(s) == [first];
      } else {
        TokensAreJoined(rest);
        assert Tokens(s)[1..] == Tokens(rest);
        JoinStep(Tokens(s));
        Regroup(first, Join(Tokens(rest)), "");
        assert Join(Tokens(rest)) + "," + "" == Join(Tokens(rest)) + ",";
        assert Join(Tokens(s)) + "," + "" == Join(Tokens(s)) + ",";
      }
    }
  }

  ghost predicate AllValid(keys: seq<string>) {
    forall i | 0 <= i < |keys| :: ValidKey(keys[i])
  }

  /** What native code takes for a list of keys: a short text of at most four, perhaps with a comma at the end. */
  ghost predicate Denotes(csv: string, keys: seq<string>) {
    && |csv| <= MAX_LENGTH && |keys| <= MAX_KEYS && AllValid(keys)
    && (csv == Join(keys) || (keys != [] && csv == Join(keys) + ","))
  }

  lemma DenotesIsTokens(csv: string, keys: seq<string>)
    ensures Denotes(csv, keys) <==>
            |csv| <= MAX_LENGTH && |keys| <= MAX_KEYS && AllValid(keys) && keys == Tokens(csv)
  {
    if csv != "" {
      TokensAreJoined(csv);
    }
    if AllValid(keys) {
      forall i | 0 <= i < |keys|
        ensures Plain(keys[i])
      {
        ValidIsPlain(keys[i]);
      }
      if keys != [] {
        JoinedIsSplit(keys);
      }
    }
  }

  /** The native parser: valid if and only if the text denotes some keys, and then these. */
  method ParseKeys(csv: string) returns (keys: seq<string>, valid: bool)
    ensures valid <==> exists ks :: Denotes(csv, ks)
    ensures valid ==> Denotes(csv, keys)
    ensures |keys| <= MAX_KEYS && AllValid(keys)
  {
    hide ValidKey, Denotes, Tokens, Comma, Join;
    var remaining := csv;
    SplitStep("");
    keys, valid := [], |remaining| <= MAX_LENGTH;
    while remaining != "" && |keys| < 5
      invariant Tokens(csv) == keys + Tokens(remaining)
      invariant |keys| <= 5 && AllValid(keys)
      invariant valid <==> |csv| <= MAX_LENGTH
      decreases |remaining|
    {
      var separator := Comma(remaining);
      var key := remaining[..separator];
      TokensStep(remaining);
      assert Tokens(csv)[|keys|] == key;
      if !ValidKey(key) {
        forall ks
          ensures !Denotes(csv, ks)
        {
          DenotesIsTokens(csv, ks);
        }
        return [], false;
      }
      keys := keys + [key];
      remaining := if separator == |remaining| then "" else remaining[separator + 1..];
    }
    forall ks
      ensures Denotes(csv, ks) <==> |csv| <= MAX_LENGTH && |ks| <= MAX_KEYS && AllValid(ks) && ks == Tokens(csv)
    {
      DenotesIsTokens(csv, ks);
    }
    if |keys| > MAX_KEYS {
      keys, valid := [], false;
    } else {
      assert keys == Tokens(csv);
    }
  }

  /** The native join, which puts a comma before every key but the first. */
  method JoinKeys(keys: seq<string>) returns (csv: string)
    requires AllValid(keys)
    ensures csv == Join(keys)
  {
    hide ValidKey;
    csv := "";
    for i := 0 to |keys|
      invariant csv == Join(keys[..i])
      invariant csv == "" <==> i == 0
    {
      ValidIsPlain(keys[i]);
      assert Plain(keys[i]);
      JoinOneMore(keys[..i], keys[i]);
      assert keys[..i + 1] == keys[..i] + [keys[i]];
      if csv != "" {
        csv := csv + ",";
      }
      csv := csv + keys[i];
    }
    assert keys[..|keys|] == keys;
  }

  lemma {:induction false} JoinOneMore(keys: seq<string>, key: string)
    ensures Join(keys + [key]) == if keys == [] then key else Join(keys) + "," + key
  {
    hide Join;
    if keys == [] {
      JoinOne(key);
      assert keys + [key] == [key];
    } else {
      var rest := keys[1..];
      assert (keys + [key])[1..] == rest + [key];
      JoinOneMore(rest, key);
      JoinStep(keys + [key]);
      if |keys| == 1 {
        JoinOne(keys[0]);
        assert keys == [keys[0]];
      } else {
        JoinStep(keys);
        Regroup(keys[0], Join(rest), key);
      }
    }
  }

  lemma Regroup(a: string, b: string, c: string)
    ensures a + "," + (b + "," + c) == a + "," + b + "," + c
  {}

  /**
    Any list of at most four allowed keys survives the way to the overlay and back, unless its text
    is too long, and then it is turned away.
   */
  method RoundTrip(keys: seq<string>) returns (back: seq<string>, accepted: bool)
    requires 1 <= |keys| <= MAX_KEYS && forall i | 0 <= i < |keys| :: AllowedKey(keys[i])
    ensures accepted <==> |Join(keys)| <= MAX_LENGTH
    ensures accepted ==> back == keys
  {
    forall i | 0 <= i < |keys|
      ensures ValidKey(keys[i]) && Plain(keys[i])
    {
      AlphabetsAgree(keys[i]);
      ValidIsPlain(keys[i]);
    }
    JoinedIsSplit(keys);
    var parsed;
    parsed, accepted := ParseKeys(Join(keys));
    DenotesIsTokens(Join(keys), keys);
    if accepted {
      DenotesIsTokens(Join(keys), parsed);
    }
    var csv := JoinKeys(parsed);
    back := if csv == "" then [] else Split(csv);
  }

  /** Python allows lists that native code turns away. */
  lemma SomeListIsTooLong() returns (keys: seq<string>)
    ensures |keys| <= MAX_KEYS && (forall i | 0 <= i < |keys| :: AllowedKey(keys[i]))
    ensures forall ks :: !Denotes(Join(keys), ks)
  {
    keys := ["backspace", "backspace", "backspace", "backspace"];
    assert NAMED[8] == "backspace";
    var three := keys[1..];
    var two := three[1..];
    var one := two[1..];
    assert |Join(keys)| == 10 + |Join(three)| && |Join(three)| == 10 + |Join(two)| && |Join(two)| == 10 + |Join(one)|;
  }

  lemma SplitWithComma(key: string)
    requires ',' !in key
    ensures Split(key + ",") == [key, ""]
  {
    hide *;
    CommaAfter(key, "");
    var s := key + ",";
    assert s == key + "," + "" && s[..|key|] == key && s[|key| + 1..] == "";
    SplitStep(s);
  }

  lemma DenotesWithComma(key: string)
    requires ValidKey(key) && |key| < MAX_LENGTH
    ensures Denotes(key + ",", [key])
  {
    hide ValidKey, Comma, Split, Join, Tokens;
    SplitStep(key);
  }

  lemma PlainHasNoComma(key: string)
    requires Plain(key)
    ensures ',' !in key
  {}

  /** Native code takes a comma at the end that Python would read as one more, empty key. */
  lemma CommaAtTheEnd(key: string)
    requires ValidKey(key) && |key| < MAX_LENGTH
    ensures Denotes(key + ",", [key]) && Split(key + ",") == [key, ""]
  {
    hide *;
    ValidIsPlain(key);
    PlainHasNoComma(key);
    DenotesWithComma(key);
    SplitWithComma(key);
  }
}
