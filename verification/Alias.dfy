/** The alias generator of the API schemas: snake case to camel case. */
module Alias {
  import opened Text

  predicate IsLower(c: char) {
    'a' <= c <= 'z'
  }

  predicate IsUpper(c: char) {
    'A' <= c <= 'Z'
  }

  predicate IsDigit(c: char) {
    '0' <= c <= '9'
  }

  function ToUpper(c: char): char {
    if IsLower(c) then (c as int - 32) as char else c
  }

  function ToLower(c: char): char {
    if IsUpper(c) then (c as int + 32) as char else c
  }

  function Lowered(s: string): (r: string)
    ensures |r| == |s| && forall i | 0 <= i < |s| :: r[i] == ToLower(s[i])
  {
    if s == "" then "" else [ToLower(s[0])] + Lowered(s[1..])
  }

  /** `str.capitalize`, on ASCII. */
  function Capitalized(word: string): string {
    if word == "" then "" else [ToUpper(word[0])] + Lowered(word[1..])
  }

  function CapitalizedAll(words: seq<string>): string {
    if words == [] then "" else Capitalized(words[0]) + CapitalizedAll(words[1..])
  }

  function ToCamelCase(value: string): string {
    var words := Split(value, '_');
    words[0] + CapitalizedAll(words[1..])
  }

  /** The way back: an underscore before each capital, which becomes small. */
  function FromCamelCase(alias: string): string {
    if alias == "" then ""
    else (if IsUpper(alias[0]) then ['_', ToLower(alias[0])] else [alias[0]]) + FromCamelCase(alias[1..])
  }

  predicate IsNameChar(c: char) {
    IsLower(c) || IsDigit(c) || c == '_'
  }

  /** The names of the schema fields: small letters, digits and underscores. */
  predicate IsName(value: string) {
    forall c | c in value :: IsNameChar(c)
  }

  /** The names whose words after the first start with a letter. */
  predicate IsSnakeCase(value: string) {
    && IsName(value)
    && forall i | 0 <= i < |value| && value[i] == '_' :: i + 1 < |value| && IsLower(value[i + 1])
  }

  predicate IsAlphanumeric(alias: string) {
    forall c | c in alias :: IsLower(c) || IsUpper(c) || IsDigit(c)
  }

  // ---------------------------------------------------------------- word by word

  lemma {:induction false} SplitAtWord(word: string, tail: string)
    requires '_' !in word && (tail == "" || tail[0] == '_')
    ensures Split(word + tail, '_') == [word] + Split(tail, '_')[1..]
  {
    if tail == "" {
      assert word + tail == word;
      SplitOfPart(word, '_');
    } else {
      assert word + tail == word + ['_'] + tail[1..];
      SplitOfConcat(word, '_', tail[1..]);
    }
  }

  /** What remains of an alias after the first word. */
  lemma AliasOfTail(tail: string)
    requires tail == "" || tail[0] == '_'
    ensures ToCamelCase(tail) == CapitalizedAll(Split(tail, '_')[1..])
  {
    SplitAtWord("", tail);
    assert "" + tail == tail;
    assert Split(tail, '_')[0] == "";
  }

  /** The first word is kept as it is. */
  lemma FirstWordKept(word: string, tail: string)
    requires '_' !in word && (tail == "" || tail[0] == '_')
    ensures ToCamelCase(word + tail) == word + ToCamelCase(tail)
  {
    SplitAtWord(word, tail);
    AliasOfTail(tail);
    var rest := Split(tail, '_')[1..];
    assert ([word] + rest)[1..] == rest;
  }

  lemma CapitalizedIs(word: string, capitalized: string)
    requires |capitalized| == |word|
    requires forall i | 0 <= i < |word| ::
               capitalized[i] as int ==
               if i == 0 && 97 <= word[i] as int <= 122 then word[i] as int - 32
               else if i > 0 && 65 <= word[i] as int <= 90 then word[i] as int + 32
               else word[i] as int
    ensures Capitalized(word) == capitalized
  {
    if word != "" {
      assert ToUpper(word[0]) == capitalized[0];
      var lower := Lowered(word[1..]);
      forall i | 0 <= i < |lower| ensures lower[i] == capitalized[i + 1] {
      }
      assert lower == capitalized[1..];
    }
  }

  /** Every other word loses the underscore before it, its first character becomes a capital if it is a small
      letter, and its later characters become small if they are capitals. */
  lemma LaterWordCapitalized(word: string, capitalized: string, tail: string)
    requires '_' !in word && (tail == "" || tail[0] == '_')
    requires |capitalized| == |word|
    requires forall i | 0 <= i < |word| ::
               capitalized[i] as int ==
               if i == 0 && 97 <= word[i] as int <= 122 then word[i] as int - 32
               else if i > 0 && 65 <= word[i] as int <= 90 then word[i] as int + 32
               else word[i] as int
    ensures ToCamelCase("_" + (word + tail)) == capitalized + ToCamelCase(tail)
  {
    CapitalizedIs(word, capitalized);
    NextWord(word, tail);
  }

  lemma NextWord(word: string, tail: string)
    requires '_' !in word && (tail == "" || tail[0] == '_')
    ensures ToCamelCase("_" + (word + tail)) == Capitalized(word) + ToCamelCase(tail)
  {
    SplitAfterUnderscore(word + tail);
    SplitAtWord(word, tail);
    CapitalizedAllOfFirst(word, Split(tail, '_')[1..]);
    AliasOfTail(tail);
  }

  // ---------------------------------------------------------------- from name to alias and back

  lemma {:induction false} FromCamelOfConcat(a: string, b: string)
    ensures FromCamelCase(a + b) == FromCamelCase(a) + FromCamelCase(b)
  {
    if a == "" {
      assert a + b == b;
    } else {
      assert (a + b)[1..] == a[1..] + b;
      FromCamelOfConcat(a[1..], b);
    }
  }

  lemma {:induction false} FromCamelOfWord(word: string)
    requires forall c | c in word :: !IsUpper(c)
    ensures FromCamelCase(word) == word && Lowered(word) == word
  {
    if word == "" {
    } else {
      assert word == [word[0]] + word[1..];
      assert word[0] in word;
      FromCamelOfWord(word[1..]);
    }
  }

  lemma FromCamelOfCapitalized(word: string)
    requires word != "" && IsLower(word[0]) && forall c | c in word :: !IsUpper(c)
    ensures FromCamelCase(Capitalized(word)) == "_" + word
  {
    assert word == [word[0]] + word[1..];
    FromCamelOfWord(word[1..]);
    assert Capitalized(word)[1..] == word[1..];
  }

  /** The words of a name, each after its underscore. */
  function Rejoined(words: seq<string>): string {
    if words == [] then "" else "_" + words[0] + Rejoined(words[1..])
  }

  lemma {:induction false} JoinIsRejoined(words: seq<string>)
    requires words != []
    ensures Join(words, '_') == words[0] + Rejoined(words[1..])
  {
    if |words| == 1 {
    } else {
      JoinIsRejoined(words[1..]);
    }
  }

  predicate AreLaterWords(words: seq<string>) {
    forall word | word in words :: word != "" && IsLower(word[0]) && forall c | c in word :: !IsUpper(c)
  }

  lemma {:induction false} FromCamelOfCapitalizedAll(words: seq<string>)
    requires AreLaterWords(words)
    ensures FromCamelCase(CapitalizedAll(words)) == Rejoined(words)
  {
    if words == [] {
    } else {
      assert words[0] in words;
      FromCamelOfCapitalized(words[0]);
      FromCamelOfCapitalizedAll(words[1..]);
      FromCamelOfConcat(Capitalized(words[0]), CapitalizedAll(words[1..]));
    }
  }

  /** In a snake-case text every word after an underscore starts with a letter. */
  lemma {:induction false} LaterWords(words: seq<string>)
    requires forall word | word in words :: '_' !in word
    requires IsSnakeCase(Rejoined(words))
    ensures AreLaterWords(words)
  {
    if words == [] {
    } else {
      var text, rest := Rejoined(words), Rejoined(words[1..]);
      assert text == "_" + words[0] + rest;
      assert text[0] == '_';
      assert words[0] != "" ==> text[1] == words[0][0];
      assert rest != "" ==> rest[0] == '_';
      forall c | c in words[0] || c in rest ensures IsNameChar(c) {
        assert c in text;
      }
      forall i | 0 <= i < |rest| && rest[i] == '_' ensures i + 1 < |rest| && IsLower(rest[i + 1]) {
        assert text[1 + |words[0]| + i] == rest[i];
        assert i + 1 < |rest| ==> text[1 + |words[0]| + i + 1] == rest[i + 1];
      }
      LaterWords(words[1..]);
    }
  }

  lemma SnakeCaseSuffix(a: string, b: string)
    requires IsSnakeCase(a + b)
    ensures IsSnakeCase(b) && IsName(a)
  {
    forall i | 0 <= i < |b| && b[i] == '_' ensures i + 1 < |b| && IsLower(b[i + 1]) {
      assert (a + b)[|a| + i] == b[i];
      assert i + 1 < |b| ==> (a + b)[|a| + i + 1] == b[i + 1];
    }
  }

  lemma FromCamelOfToCamel(value: string)
    requires IsSnakeCase(value)
    ensures FromCamelCase(ToCamelCase(value)) == value
  {
    var words := Split(value, '_');
    JoinOfSplit(value, '_');
    JoinIsRejoined(words);
    SnakeCaseSuffix(words[0], Rejoined(words[1..]));
    LaterWords(words[1..]);
    FromCamelOfWord(words[0]);
    FromCamelOfConcat(words[0], CapitalizedAll(words[1..]));
    FromCamelOfCapitalizedAll(words[1..]);
  }

  // ---------------------------------------------------------------- from alias to name and back

  lemma {:induction false} FromCamelIsSnakeCase(alias: string)
    requires IsAlphanumeric(alias)
    ensures IsSnakeCase(FromCamelCase(alias))
  {
    if alias == "" {
    } else {
      assert alias == [alias[0]] + alias[1..];
      assert alias[0] in alias;
      FromCamelIsSnakeCase(alias[1..]);
      var rest := FromCamelCase(alias[1..]);
      var head := if IsUpper(alias[0]) then ['_', ToLower(alias[0])] else [alias[0]];
      var name := head + rest;
      forall i | 0 <= i < |name| && name[i] == '_' ensures i + 1 < |name| && IsLower(name[i + 1]) {
        assert i >= |head| ==> name[i] == rest[i - |head|];
      }
    }
  }

  /** One character of the alias, in front of the rest of the name. */
  lemma ToCamelOfFirst(first: char, rest: string)
    requires IsLower(first) || IsUpper(first) || IsDigit(first)
    requires IsName(rest)
    ensures var head := if IsUpper(first) then ['_', ToLower(first)] else [first];
            ToCamelCase(head + rest) == [first] + ToCamelCase(rest)
  {
    if IsUpper(first) {
      ToCamelOfCapital(ToLower(first), rest);
      assert ['_', ToLower(first)] + rest == "_" + ([ToLower(first)] + rest);
    } else {
      ToCamelOfLetter(first, rest);
    }
  }

  lemma {:induction false} ToCamelOfFromCamel(alias: string)
    requires IsAlphanumeric(alias)
    ensures ToCamelCase(FromCamelCase(alias)) == alias
  {
    if alias == "" {
    } else {
      assert alias == [alias[0]] + alias[1..];
      assert alias[0] in alias;
      ToCamelOfFromCamel(alias[1..]);
      FromCamelIsSnakeCase(alias[1..]);
      ToCamelOfFirst(alias[0], FromCamelCase(alias[1..]));
    }
  }

  lemma Associative(a: string, b: string, c: string)
    ensures a + (b + c) == (a + b) + c
  {
  }

  /** A character that is no underscore joins the first word. */
  lemma SplitOfLetter(c: char, rest: string)
    requires c != '_'
    ensures Split([c] + rest, '_') == [[c] + Split(rest, '_')[0]] + Split(rest, '_')[1..]
  {
    assert ([c] + rest)[1..] == rest;
  }

  lemma ToCamelOfLetter(c: char, rest: string)
    requires c != '_'
    ensures ToCamelCase([c] + rest) == [c] + ToCamelCase(rest)
  {
    var words := Split(rest, '_');
    SplitOfLetter(c, rest);
    assert ([[c] + words[0]] + words[1..])[1..] == words[1..];
    Associative([c], words[0], CapitalizedAll(words[1..]));
  }

  lemma CapitalizedOfLetter(small: char, word: string)
    requires forall c | c in word :: !IsUpper(c)
    ensures Capitalized([small] + word) == [ToUpper(small)] + word
  {
    FromCamelOfWord(word);
    assert ([small] + word)[1..] == word;
  }

  lemma CapitalizedAllOfFirst(first: string, others: seq<string>)
    ensures CapitalizedAll([first] + others) == Capitalized(first) + CapitalizedAll(others)
  {
    assert ([first] + others)[1..] == others;
  }

  lemma SplitAfterUnderscore(rest: string)
    ensures ToCamelCase("_" + rest) == CapitalizedAll(Split(rest, '_'))
  {
    assert ("_" + rest)[1..] == rest;
    assert ([""] + Split(rest, '_'))[1..] == Split(rest, '_');
  }

  /** A letter after an underscore becomes a capital. */
  lemma ToCamelOfCapital(small: char, rest: string)
    requires IsLower(small) && IsName(rest)
    ensures ToCamelCase("_" + ([small] + rest)) == [ToUpper(small)] + ToCamelCase(rest)
  {
    var words := Split(rest, '_');
    SplitAfterUnderscore([small] + rest);
    SplitOfLetter(small, rest);
    CapitalizedAllOfFirst([small] + words[0], words[1..]);
    FirstWordIsLower(rest);
    CapitalizedOfLetter(small, words[0]);
    Associative([ToUpper(small)], words[0], CapitalizedAll(words[1..]));
  }

  lemma FirstWordIsLower(name: string)
    requires IsName(name)
    ensures forall c | c in Split(name, '_')[0] :: !IsUpper(c)
  {
    var words := Split(name, '_');
    JoinOfSplit(name, '_');
    JoinIsRejoined(words);
    forall c | c in words[0] ensures !IsUpper(c) {
      assert c in name;
    }
  }

  // ---------------------------------------------------------------- the alias of any name

  lemma {:induction false} CapitalizedAllAlphanumeric(words: seq<string>)
    requires forall word | word in words :: '_' !in word && IsName(word)
    ensures IsAlphanumeric(CapitalizedAll(words))
  {
    if words == [] {
    } else {
      var word := words[0];
      assert word in words;
      CapitalizedAllAlphanumeric(words[1..]);
      forall c | c in Capitalized(word) ensures IsLower(c) || IsUpper(c) || IsDigit(c) {
        var i :| 0 <= i < |word| && Capitalized(word)[i] == c;
        assert word[i] in word;
      }
    }
  }

  lemma {:induction false} RejoinedWords(words: seq<string>)
    requires IsName(Rejoined(words))
    ensures forall word | word in words :: IsName(word)
  {
    if words == [] {
    } else {
      assert words == [words[0]] + words[1..];
      assert Rejoined(words) == "_" + words[0] + Rejoined(words[1..]);
      forall c | c in words[0] || c in Rejoined(words[1..]) ensures IsNameChar(c) {
        assert c in Rejoined(words);
      }
      RejoinedWords(words[1..]);
    }
  }

  /** An alias holds no underscore: it is made of letters and digits. */
  lemma AliasAlphanumeric(value: string)
    requires forall c | c in value :: 'a' <= c <= 'z' || '0' <= c <= '9' || c == '_'
    ensures forall c | c in ToCamelCase(value) :: 'a' <= c <= 'z' || 'A' <= c <= 'Z' || '0' <= c <= '9'
  {
    var words := Split(value, '_');
    JoinOfSplit(value, '_');
    JoinIsRejoined(words);
    forall c | c in words[0] || c in Rejoined(words[1..]) ensures IsNameChar(c) {
      assert c in value;
    }
    RejoinedWords(words[1..]);
    CapitalizedAllAlphanumeric(words[1..]);
  }

  // ---------------------------------------------------------------- the laws

  /** A name of small letters, digits and underscores can be read back from its alias exactly when every
      underscore is followed by a letter. */
  lemma NameReadBackExactly(value: string)
    requires forall c | c in value :: 'a' <= c <= 'z' || '0' <= c <= '9' || c == '_'
    ensures FromCamelCase(ToCamelCase(value)) == value <==>
            forall i | 0 <= i < |value| && value[i] == '_' :: i + 1 < |value| && 'a' <= value[i + 1] <= 'z'
  {
    AliasAlphanumeric(value);
    FromCamelIsSnakeCase(ToCamelCase(value));
    if IsSnakeCase(value) {
      FromCamelOfToCamel(value);
    }
  }

  /** Two names of this kind never share an alias, and every alphanumeric text is the alias of one. */
  lemma AliasesCorrespond(first: string, second: string, alias: string)
    requires forall c | c in first + second :: 'a' <= c <= 'z' || '0' <= c <= '9' || c == '_'
    requires forall i | 0 <= i < |first| && first[i] == '_' :: i + 1 < |first| && 'a' <= first[i + 1] <= 'z'
    requires forall i | 0 <= i < |second| && second[i] == '_' :: i + 1 < |second| && 'a' <= second[i + 1] <= 'z'
    requires forall c | c in alias :: 'a' <= c <= 'z' || 'A' <= c <= 'Z' || '0' <= c <= '9'
    ensures ToCamelCase(first) == ToCamelCase(second) <==> first == second
    ensures IsSnakeCase(FromCamelCase(alias)) && ToCamelCase(FromCamelCase(alias)) == alias
  {
    assert forall c | c in first || c in second :: c in first + second;
    FromCamelOfToCamel(first);
    FromCamelOfToCamel(second);
    FromCamelIsSnakeCase(alias);
    ToCamelOfFromCamel(alias);
  }

  /** Any other name shares its alias with one of them; "a_1" with "a1", for example. */
  lemma OtherNamesCollide(value: string)
    requires IsName(value)
    ensures var twin := FromCamelCase(ToCamelCase(value));
            IsSnakeCase(twin) && ToCamelCase(twin) == ToCamelCase(value) && (twin != value <==> !IsSnakeCase(value))
  {
    AliasAlphanumeric(value);
    FromCamelIsSnakeCase(ToCamelCase(value));
    ToCamelOfFromCamel(ToCamelCase(value));
    NameReadBackExactly(value);
  }
}
