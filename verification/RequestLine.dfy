/**
  The microVM request line: what src/main.rs prints, what `validate_request` of
  src/microvm.rs lets through, and what the shell manager of scripts/microvmd.sh reads.
  Characters above 0x7f appear only to be refused.
 */
module RequestLine {
  import opened Outcomes

  const LINE_LIMIT := 4096
  const TOKEN_LIMIT := 1024
  const ID_LIMIT := 64

  // ----- Words -----

  /** Whitespace to `split_whitespace`; the shell splits at blanks, tabs and newlines only. */
  predicate IsSpace(c: char, shell: bool) {
    c == ' ' || c == '\t' || c == '\n' ||
    (!shell && (c == '\r' || c == 0x0b as char || c == 0x0c as char || c == 0x85 as char || c == 0xa0 as char ||
                c == 0x1680 as char || 0x2000 as char <= c <= 0x200a as char || c == 0x2028 as char ||
                c == 0x2029 as char || c == 0x202f as char || c == 0x205f as char || c == 0x3000 as char))
  }

  /** The characters before the first space. */
  function FirstWord(s: string, shell: bool): (w: string)
    ensures |w| <= |s|
    ensures s != "" && !IsSpace(s[0], shell) ==> w != ""
  {
    if s == "" || IsSpace(s[0], shell) then "" else [s[0]] + FirstWord(s[1..], shell)
  }

  function Words(s: string, shell: bool): seq<string>
    decreases |s|
  {
    if s == "" then []
    else if IsSpace(s[0], shell) then Words(s[1..], shell)
    else var w := FirstWord(s, shell); [w] + Words(s[|w|..], shell)
  }

  // ----- Characters, ids and paths -----

  predicate IsLetterOrDigit(c: char) {
    'a' <= c <= 'z' || 'A' <= c <= 'Z' || '0' <= c <= '9'
  }

  predicate IsIdChar(c: char) {
    IsLetterOrDigit(c) || c == '_' || c == '.' || c == '-'
  }

  predicate IsTokenChar(c: char) {
    IsIdChar(c) || c == '/' || c == '=' || c == ':'
  }

  predicate HasDots(s: string) {
    exists k :: 0 <= k < |s| - 1 && s[k] == '.' && s[k + 1] == '.'
  }

  /** `validate_id`, and `valid_id` of the shell. */
  predicate ValidId(s: string) {
    0 < |s| <= ID_LIMIT && s != "." && s != ".." && forall k :: 0 <= k < |s| ==> IsIdChar(s[k])
  }

  /** `validate_guest_path` */
  predicate ValidGuestPath(s: string) {
    s != "" && s[0] == '/' && !HasDots(s) && |s| <= 1024 && forall k :: 0 <= k < |s| ==> IsTokenChar(s[k])
  }

  /** The space class of the shell's patterns, in the C locale. */
  predicate InSpaceClass(c: char) {
    c == ' ' || 0x09 as char <= c <= 0x0d as char
  }

  /** `valid_path` of the shell. */
  predicate ValidShellPath(s: string) {
    s != "" && s[0] == '/' && !HasDots(s) && forall k :: 0 <= k < |s| ==> !InSpaceClass(s[k])
  }

  // ----- Sizes -----

  /** The bytes of a character in UTF-8. */
  function Width(c: char): nat {
    if c < 0x80 as char then 1 else if c < 0x800 as char then 2 else if c < 0x1_0000 as char then 3 else 4
  }

  /** The bytes of a text, which both sides count. */
  function Size(s: string): nat {
    if s == "" then 0 else Width(s[0]) + Size(s[1..])
  }

  lemma {:induction false} SizeOfAscii(s: string)
    requires forall k :: 0 <= k < |s| ==> s[k] < 0x80 as char
    ensures Size(s) == |s|
  {
    if s != "" {
      SizeOfAscii(s[1..]);
    }
  }

  // ----- Fields -----

  /** The text before the first '='; the whole of it when there is none. */
  function KeyOf(token: string): (key: string)
    ensures |key| <= |token|
    ensures |key| < |token| ==> token[|key|] == '='
    ensures '=' !in key && key == token[..|key|]
  {
    if token == "" || token[0] == '=' then "" else [token[0]] + KeyOf(token[1..])
  }

  predicate HasValue(token: string) {
    '=' in token
  }

  function ValueOf(token: string): string {
    if |KeyOf(token)| < |token| then token[|KeyOf(token)| + 1..] else ""
  }

  function Keys(tokens: seq<string>): set<string> {
    set k | 0 <= k < |tokens| :: KeyOf(tokens[k])
  }

  /** What the tokens say, key by key. */
  function FieldsOf(tokens: seq<string>): map<string, string> {
    if tokens == [] then map[]
    else
      var last := tokens[|tokens| - 1];
      FieldsOf(tokens[..|tokens| - 1])[KeyOf(last) := ValueOf(last)]
  }

  /** The fields of each action; the shell asks for no more, but refuses none of these. */
  function Allowed(action: string): Option<set<string>> {
    if action == "capabilities" then Some({})
    else if action == "inspect" || action == "start" then Some({"id"})
    else if action == "create" then Some({"id", "kernel", "rootfs", "vcpus", "memory_mib"})
    else if action == "stop" then Some({"id", "force"})
    else None
  }

  // ----- The client -----

  /** What both sides ask of a field. */
  predicate Readable(token: string, allowed: set<string>) {
    && HasValue(token) && KeyOf(token) in allowed && ValueOf(token) != ""
    && (KeyOf(token) == "id" ==> ValidId(ValueOf(token)))
  }

  predicate TokenOk(token: string, allowed: set<string>) {
    && |token| <= TOKEN_LIMIT && Readable(token, allowed)
    && (forall k :: 0 <= k < |token| ==> IsTokenChar(token[k]))
    && (KeyOf(token) in {"kernel", "rootfs"} ==> ValidGuestPath(ValueOf(token)))
  }

  predicate Distinct(tokens: seq<string>) {
    forall j, k :: 0 <= j < k < |tokens| ==> KeyOf(tokens[j]) != KeyOf(tokens[k])
  }

  function Required(action: string): set<string> {
    if action == "create" then {"id", "kernel", "rootfs"} else if action in {"start", "stop"} then {"id"} else {}
  }

  predicate BadChar(c: char) {
    c == '\n' || c == '\r' || c == '\0' || c == '\'' || c == '"' || c == '\\'
  }

  predicate TokensOk(action: string, tokens: seq<string>) {
    && Allowed(action).Some? && (forall k :: 0 <= k < |tokens| ==> TokenOk(tokens[k], Allowed(action).value))
    && Distinct(tokens) && Required(action) <= Keys(tokens)
  }

  /** The requests that the client sends. */
  predicate ClientAccepts(request: string) {
    && request != "" && Size(request) <= LINE_LIMIT && (forall k :: 0 <= k < |request| ==> !BadChar(request[k]))
    && var words := Words(request, false);
       words != [] && TokensOk(words[0], words[1..])
  }

  /** `validate_request` */
  method ValidateRequest(request: string) returns (ok: bool)
    ensures ok <==> ClientAccepts(request)
  {
    hide Words, KeyOf, TokenOk, Allowed, BadChar, Distinct, Keys;
    KeysAtFirst();
    if request == "" || Size(request) > LINE_LIMIT || (exists k | 0 <= k < |request| :: BadChar(request[k])) {
      return false;
    }
    var words := Words(request, false);
    if words == [] {
      return false;
    }
    var action, tokens := words[0], words[1..];
    var allowed := Allowed(action);
    if allowed.None? {
      return false;
    }
    var seen: set<string> := {};
    for i := 0 to |tokens|
      invariant seen == Keys(tokens[..i]) && Distinct(tokens[..i]) && (i == |tokens| ==> tokens[..i] == tokens)
      invariant forall k :: 0 <= k < i ==> TokenOk(tokens[k], allowed.value)
    {
      var token := tokens[i];
      KeysStep(tokens, i);
      if !TokenOk(token, allowed.value) || KeyOf(token) in seen {
        return false;
      }
      seen := seen + {KeyOf(token)};
    }
    return Required(action) <= seen;
  }

  lemma KeysAtFirst()
    ensures Keys([]) == {} && Distinct([])
  {
  }

  lemma KeysStep(tokens: seq<string>, i: nat)
    requires i < |tokens|
    ensures Keys(tokens[..i + 1]) == Keys(tokens[..i]) + {KeyOf(tokens[i])}
    ensures Distinct(tokens[..i + 1]) <==> Distinct(tokens[..i]) && KeyOf(tokens[i]) !in Keys(tokens[..i])
    ensures Distinct(tokens) ==> Distinct(tokens[..i + 1])
  {
    var more, fewer := tokens[..i + 1], tokens[..i];
    assert more[..i] == fewer && more[i] == tokens[i];
    forall key ensures key in Keys(more) <==> key in Keys(fewer) || key == KeyOf(tokens[i]) {
      if key in Keys(fewer) {
        var k :| 0 <= k < i && key == KeyOf(fewer[k]);
        assert KeyOf(more[k]) == key;
      }
    }
  }

  // ----- The shell manager -----

  datatype GuestError =
    | LineTooLarge | NoAction | UnknownAction | NotAPair | EmptyField | DuplicateField | UnknownField | InvalidId

  /** The loop over the fields, from token `i` on; a field is seen when it has a value. */
  function Scan(allowed: set<string>, tokens: seq<string>, i: nat,
                fields: map<string, string>): Result<map<string, string>, GuestError>
    decreases |tokens| - i
  {
    if i >= |tokens| then Ok(fields) else
      var key, value := KeyOf(tokens[i]), ValueOf(tokens[i]);
      if !HasValue(tokens[i]) then Err(NotAPair)
      else if value == "" then Err(EmptyField)
      else if key in fields then Err(DuplicateField)
      else if key !in allowed then Err(UnknownField)
      else if key == "id" && !ValidId(value) then Err(InvalidId)
      else Scan(allowed, tokens, i + 1, fields[key := value])
  }

  /** What the shell reads from a line: the action and its fields. */
  function GuestReads(line: string): Result<(string, map<string, string>), GuestError> {
    var words := Words(line, true);
    if Size(line) > LINE_LIMIT then Err(LineTooLarge)
    else if words == [] then Err(NoAction)
    else if Allowed(words[0]).None? then Err(UnknownAction)
    else
      var fields :- Scan(Allowed(words[0]).value, words[1..], 0, map[]);
      Ok((words[0], fields))
  }

  method ReadLine(line: string) returns (r: Result<(string, map<string, string>), GuestError>)
    ensures r == GuestReads(line)
  {
    hide Words, ValidId, Allowed, KeyOf, ValueOf, HasValue;
    if Size(line) > LINE_LIMIT {
      return Err(LineTooLarge);
    }
    var words := Words(line, true);
    if words == [] {
      return Err(NoAction);
    }
    var action, tokens := words[0], words[1..];
    var allowed := Allowed(action);
    if allowed.None? {
      return Err(UnknownAction);
    }
    var fields: map<string, string> := map[];
    for i := 0 to |tokens|
      invariant Scan(allowed.value, tokens, 0, map[]) == Scan(allowed.value, tokens, i, fields)
    {
      var key, value := KeyOf(tokens[i]), ValueOf(tokens[i]);
      if !HasValue(tokens[i]) {
        return Err(NotAPair);
      }
      if value == "" {
        return Err(EmptyField);
      }
      if key in fields {
        return Err(DuplicateField);
      }
      if key !in allowed.value {
        return Err(UnknownField);
      }
      if key == "id" && !ValidId(value) {
        return Err(InvalidId);
      }
      fields := fields[key := value];
    }
    return Ok((action, fields));
  }

  // ----- Agreement -----

  lemma {:induction false} WordsAgree(s: string)
    requires forall k :: 0 <= k < |s| && IsSpace(s[k], false) ==> IsSpace(s[k], true)
    ensures Words(s, false) == Words(s, true)
    decreases |s|
  {
    if s != "" {
      if IsSpace(s[0], false) {
        WordsAgree(s[1..]);
      } else {
        FirstWordsAgree(s);
        WordsAgree(s[|FirstWord(s, false)|..]);
      }
    }
  }

  lemma {:induction false} FirstWordsAgree(s: string)
    requires forall k :: 0 <= k < |s| && IsSpace(s[k], false) ==> IsSpace(s[k], true)
    ensures FirstWord(s, false) == FirstWord(s, true)
  {
    if s != "" && !IsSpace(s[0], false) {
      FirstWordsAgree(s[1..]);
    }
  }

  lemma {:induction false} FieldsHaveKeys(tokens: seq<string>)
    ensures FieldsOf(tokens).Keys == Keys(tokens)
  {
    if tokens != [] {
      var n := |tokens| - 1;
      FieldsHaveKeys(tokens[..n]);
      KeysStep(tokens, n);
      assert tokens[..n + 1] == tokens;
    }
  }

  lemma {:induction false} ScanAccepts(allowed: set<string>, tokens: seq<string>, i: nat)
    requires i <= |tokens| && Distinct(tokens) && forall k :: 0 <= k < |tokens| ==> Readable(tokens[k], allowed)
    ensures Scan(allowed, tokens, i, FieldsOf(tokens[..i])) == Ok(FieldsOf(tokens))
    decreases |tokens| - i
  {
    hide KeyOf, ValueOf, HasValue, ValidId;
    if i == |tokens| {
      assert tokens[..i] == tokens;
    } else {
      assert Readable(tokens[i], allowed);
      FieldsHaveKeys(tokens[..i]);
      KeysStep(tokens, i);
      DistinctPrefix(tokens, i + 1);
      FieldsStep(tokens, i);
      ScanAccepts(allowed, tokens, i + 1);
    }
  }

  lemma FieldsStep(tokens: seq<string>, i: nat)
    requires i < |tokens|
    ensures FieldsOf(tokens[..i + 1]) == FieldsOf(tokens[..i])[KeyOf(tokens[i]) := ValueOf(tokens[i])]
  {
    assert tokens[..i + 1][..i] == tokens[..i] && tokens[..i + 1][i] == tokens[i];
  }

  lemma DistinctPrefix(tokens: seq<string>, i: nat)
    requires i <= |tokens| && Distinct(tokens)
    ensures Distinct(tokens[..i])
  {
    hide KeyOf;
    forall j, k | 0 <= j < k < i ensures KeyOf(tokens[..i][j]) != KeyOf(tokens[..i][k]) {
      assert tokens[..i][j] == tokens[j] && tokens[..i][k] == tokens[k];
    }
  }

  lemma {:induction false} FirstWordHasNoSpace(s: string, shell: bool)
    ensures forall c :: c in FirstWord(s, shell) ==> !IsSpace(c, shell)
    ensures FirstWord(s, shell) == s[..|FirstWord(s, shell)|]
  {
    hide IsSpace;
    if s != "" && !IsSpace(s[0], shell) {
      FirstWordHasNoSpace(s[1..], shell);
    }
  }

  lemma {:induction false} WordsHaveNoSpace(s: string, shell: bool)
    ensures forall w, c :: w in Words(s, shell) && c in w ==> !IsSpace(c, shell)
    decreases |s|
  {
    hide IsSpace;
    if s != "" {
      if IsSpace(s[0], shell) {
        WordsHaveNoSpace(s[1..], shell);
      } else {
        FirstWordHasNoSpace(s, shell);
        WordsHaveNoSpace(s[|FirstWord(s, shell)|..], shell);
      }
    }
  }

  /** What is not a space is in a word. */
  lemma {:induction false} WordsCover(s: string, shell: bool, k: nat) returns (j: nat)
    requires k < |s| && !IsSpace(s[k], shell)
    ensures j < |Words(s, shell)| && s[k] in Words(s, shell)[j]
    decreases |s|
  {
    hide IsSpace;
    if IsSpace(s[0], shell) {
      j := WordsCover(s[1..], shell, k - 1);
    } else {
      var w := FirstWord(s, shell);
      FirstWordHasNoSpace(s, shell);
      if k < |w| {
        assert s[k] == w[k];
        j := 0;
      } else {
        var rest := WordsCover(s[|w|..], shell, k - |w|);
        j := rest + 1;
      }
    }
  }

  lemma {:induction false} FieldsAreOfTokens(tokens: seq<string>, key: string) returns (j: nat)
    requires key in FieldsOf(tokens)
    ensures j < |tokens| && KeyOf(tokens[j]) == key && FieldsOf(tokens)[key] == ValueOf(tokens[j])
  {
    hide KeyOf, ValueOf;
    j := |tokens| - 1;
    if key != KeyOf(tokens[j]) {
      j := FieldsAreOfTokens(tokens[..j], key);
    }
  }

  /** A loop that ends without an error has kept what it had, and every token after that. */
  lemma {:induction false} ScanKeeps(allowed: set<string>, tokens: seq<string>, i: nat, fields: map<string, string>,
                                     j: nat)
    requires Scan(allowed, tokens, i, fields).Ok? && i <= |tokens|
    ensures var after := Scan(allowed, tokens, i, fields).value;
            && (forall key :: key in fields ==> key in after && after[key] == fields[key])
            && (i <= j < |tokens| ==> KeyOf(tokens[j]) in after && after[KeyOf(tokens[j])] == ValueOf(tokens[j]))
    decreases |tokens| - i
  {
    hide KeyOf, ValueOf, ValidId;
    if i < |tokens| {
      ScanKeeps(allowed, tokens, i + 1, fields[KeyOf(tokens[i]) := ValueOf(tokens[i])], j);
    }
  }

  lemma KeyOrValue(token: string, c: char)
    requires c in token && c != '='
    ensures c in KeyOf(token) || c in ValueOf(token)
  {
    var n := |KeyOf(token)|;
    assert token == KeyOf(token) + token[n..];
    if n < |token| {
      assert token[n..] == ['='] + ValueOf(token);
    }
  }

  lemma PartsAreOfToken(token: string, c: char)
    ensures c in KeyOf(token) || c in ValueOf(token) ==> c in token
  {
  }

  /** Tokens that say the same have the same characters, but for '='. */
  lemma SameFieldsSameCharacters(allowed: set<string>, a: seq<string>, b: seq<string>, j: nat, c: char)
    requires Scan(allowed, b, 0, map[]) == Ok(FieldsOf(a)) && j < |b| && c in b[j] && c != '='
    ensures exists i :: 0 <= i < |a| && c in a[i]
  {
    ScanKeeps(allowed, b, 0, map[], j);
    hide KeyOf, ValueOf, FieldsOf, Scan;
    var i := FieldsAreOfTokens(a, KeyOf(b[j]));
    KeyOrValue(b[j], c);
    PartsAreOfToken(a[i], c);
  }

  /** What the shell reads has the characters of the client's words wherever the shell sees a word. */
  lemma SameReadingSameCharacters(request: string, words: seq<string>, j: nat, c: char)
    requires words != [] && GuestReads(request) == Ok((words[0], FieldsOf(words[1..])))
    requires j < |Words(request, true)| && c in Words(request, true)[j] && c != '='
    ensures exists w :: w in words && c in w
  {
    hide Words, Allowed, FieldsOf, Scan;
    var read := Words(request, true);
    if j == 0 {
      assert c in words[0];
    } else {
      assert read[1..][j - 1] == read[j];
      SameFieldsSameCharacters(Allowed(read[0]).value, words[1..], read[1..], j - 1, c);
      var i :| 0 <= i < |words[1..]| && c in words[1..][i];
      assert words[i + 1] in words;
    }
  }

  /** If the shell reads what the client meant, every character that the client takes as space is one to the shell. */
  lemma SameFieldsSameSpace(request: string, k: nat)
    requires k < |request| && IsSpace(request[k], false)
    requires var words := Words(request, false);
             words != [] && GuestReads(request) == Ok((words[0], FieldsOf(words[1..])))
    ensures IsSpace(request[k], true)
  {
    if !IsSpace(request[k], true) {
      assert request[k] != '=';
      hide IsSpace, Words, GuestReads, FieldsOf;
      WordsHaveNoSpace(request, false);
      var j := WordsCover(request, true, k);
      SameReadingSameCharacters(request, Words(request, false), j, request[k]);
      assert false;
    }
  }

  lemma TokensAreRead(action: string, tokens: seq<string>)
    requires TokensOk(action, tokens)
    ensures Scan(Allowed(action).value, tokens, 0, map[]) == Ok(FieldsOf(tokens))
  {
    hide Allowed, Required;
    forall k | 0 <= k < |tokens| ensures Readable(tokens[k], Allowed(action).value) {
      assert TokenOk(tokens[k], Allowed(action).value);
    }
    ScanAccepts(Allowed(action).value, tokens, 0);
    assert tokens[..0] == [];
  }

  lemma SameSpaceSameFields(request: string)
    requires ClientAccepts(request)
    requires forall k :: 0 <= k < |request| && IsSpace(request[k], false) ==> IsSpace(request[k], true)
    ensures var words := Words(request, false);
            words != [] && GuestReads(request) == Ok((words[0], FieldsOf(words[1..])))
  {
    var words := Words(request, false);
    assert TokensOk(words[0], words[1..]) && Allowed(words[0]).Some?;
    hide IsSpace, Words, Allowed, BadChar, Size, TokensOk, FieldsOf, Scan;
    WordsAgree(request);
    TokensAreRead(words[0], words[1..]);
  }

  /**
    The shell reads the same action and fields from a request that the client sends exactly when
    every space in it is one to the shell; from any other it reads something else, or an error.
   */
  lemma ClientAndGuestAgree(request: string)
    requires ClientAccepts(request)
    ensures var words := Words(request, false);
            && words != []
            && (GuestReads(request) == Ok((words[0], FieldsOf(words[1..]))) <==>
                forall k :: 0 <= k < |request| && IsSpace(request[k], false) ==> IsSpace(request[k], true))
  {
    hide IsSpace, Words, GuestReads, FieldsOf, TokensOk, BadChar;
    var words := Words(request, false);
    if GuestReads(request) == Ok((words[0], FieldsOf(words[1..]))) {
      forall k | 0 <= k < |request| && IsSpace(request[k], false) ensures IsSpace(request[k], true) {
        SameFieldsSameSpace(request, k);
      }
    }
    if forall k :: 0 <= k < |request| && IsSpace(request[k], false) ==> IsSpace(request[k], true) {
      SameSpaceSameFields(request);
    }
  }

  // ----- The printed line -----

  function Digit(d: nat): char
    requires d < 10
  {
    '0' + d as char
  }

  /** A number as Rust prints it. */
  function Decimal(n: nat): (s: string)
    ensures s != "" && forall k :: 0 <= k < |s| ==> '0' <= s[k] <= '9'
  {
    if n < 10 then [Digit(n)] else Decimal(n / 10) + [Digit(n % 10)]
  }

  /** A number as the shell reads it, when it has only digits. */
  function Number(s: string): Option<nat> {
    if s == "" then None
    else
      var d := s[|s| - 1];
      if !('0' <= d <= '9') then None
      else if |s| == 1 then Some(d as int - '0' as int)
      else
        var rest := Number(s[..|s| - 1]);
        if rest.None? then None else Some(rest.value * 10 + (d as int - '0' as int))
  }

  lemma {:induction false} NumberOfDecimal(n: nat)
    ensures Number(Decimal(n)) == Some(n)
  {
    if n >= 10 {
      NumberOfDecimal(n / 10);
      assert Decimal(n)[..|Decimal(n)| - 1] == Decimal(n / 10);
    }
  }

  lemma {:induction false} DecimalLength(n: nat)
    requires n < 100_000
    ensures |Decimal(n)| <= 5
  {
    assert n / 10 < 10_000 && n / 10 / 10 < 1_000 && n / 10 / 10 / 10 < 100 && n / 10 / 10 / 10 / 10 < 10;
    if n >= 10 {
      assert |Decimal(n)| == |Decimal(n / 10)| + 1;
      if n / 10 >= 10 {
        assert |Decimal(n / 10)| == |Decimal(n / 10 / 10)| + 1;
        if n / 10 / 10 >= 10 {
          assert |Decimal(n / 10 / 10)| == |Decimal(n / 10 / 10 / 10)| + 1;
        }
      }
    }
  }

  function Spaced(words: seq<string>): string {
    if words == [] then "" else if |words| == 1 then words[0] else words[0] + " " + Spaced(words[1..])
  }

  function Pair(key: string, value: string): string {
    key + "=" + value
  }

  function CreateTokens(id: string, kernel: string, rootfs: string, vcpus: nat, memory: nat): seq<string> {
    [Pair("id", id), Pair("kernel", kernel), Pair("rootfs", rootfs), Pair("vcpus", Decimal(vcpus)),
     Pair("memory_mib", Decimal(memory))]
  }

  function CreateWords(id: string, kernel: string, rootfs: string, vcpus: nat, memory: nat): (words: seq<string>)
    ensures |words| == 6 && words[1..] == CreateTokens(id, kernel, rootfs, vcpus, memory)
  {
    ["create"] + CreateTokens(id, kernel, rootfs, vcpus, memory)
  }

  /** The line that `luhmen microvm create` sends. */
  function CreateLine(id: string, kernel: string, rootfs: string, vcpus: nat, memory: nat): string {
    Spaced(CreateWords(id, kernel, rootfs, vcpus, memory))
  }

  predicate NoSpace(s: string) {
    forall k :: 0 <= k < |s| ==> !IsSpace(s[k], false)
  }

  lemma {:induction false} FirstWordIs(word: string, rest: string, shell: bool)
    requires forall k :: 0 <= k < |word| ==> !IsSpace(word[k], shell)
    requires rest == "" || IsSpace(rest[0], shell)
    ensures FirstWord(word + rest, shell) == word
  {
    if word == "" {
      assert word + rest == rest;
    } else {
      assert (word + rest)[1..] == word[1..] + rest && (word + rest)[0] == word[0];
      FirstWordIs(word[1..], rest, shell);
    }
  }

  lemma WordThenRest(word: string, rest: string, shell: bool)
    requires word != "" && NoSpace(word) && (rest == "" || rest[0] == ' ')
    ensures Words(word + rest, shell) == [word] + if rest == "" then [] else Words(rest[1..], shell)
  {
    var line := word + rest;
    FirstWordIs(word, rest, shell);
    hide FirstWord;
    assert line[0] == word[0] && line[|word|..] == rest;
    if rest != "" {
      assert Words(rest, shell) == Words(rest[1..], shell);
    }
  }

  /** An accepted request in which the shell sees no action that it knows. */
  lemma VerticalTabIsRefused()
    ensures var request := "inspect" + [0x0b as char];
            ClientAccepts(request) && GuestReads(request) == Err(UnknownAction)
  {
    var tab := [0x0b as char];
    var request := "inspect" + tab;
    FirstWordIs("inspect", tab, false);
    FirstWordIs(request, "", true);
    assert request + "" == request && tab[1..] == "";
    assert Words(tab, false) == [];
    assert request[7..] == tab && request[8..] == "";
    assert Words(request, false) == ["inspect"];
    assert Words(request, true) == [request];
    assert request[7] == 0x0b as char;
    SizeOfAscii(request);
    hide Words, FirstWord;
    assert request != "inspect" && request != "capabilities" && request != "start";
    assert request != "create" && request != "stop";
  }

  lemma {:induction false} WordsOfSpaced(words: seq<string>, shell: bool)
    requires forall k :: 0 <= k < |words| ==> words[k] != "" && NoSpace(words[k])
    ensures Words(Spaced(words), shell) == words
  {
    if words != [] {
      var rest := if |words| == 1 then "" else " " + Spaced(words[1..]);
      assert Spaced(words) == words[0] + rest;
      WordThenRest(words[0], rest, shell);
      hide Words, IsSpace, NoSpace;
      if |words| > 1 {
        assert forall k :: 0 <= k < |words| - 1 ==> words[1..][k] == words[k + 1];
        WordsOfSpaced(words[1..], shell);
        assert rest[1..] == Spaced(words[1..]);
      }
    }
  }

  lemma {:induction false} KeyOfPair(key: string, value: string)
    requires '=' !in key
    ensures KeyOf(Pair(key, value)) == key && ValueOf(Pair(key, value)) == value && HasValue(Pair(key, value))
  {
    var token := Pair(key, value);
    if key != "" {
      KeyOfPair(key[1..], value);
      assert token[1..] == Pair(key[1..], value);
    }
    assert token[|key|] == '=';
    assert token[|key| + 1..] == value;
  }

  lemma SpacedTail(words: seq<string>, i: nat)
    requires i < |words|
    ensures |Spaced(words[i..])| == |words[i]| + if i + 1 < |words| then 1 + |Spaced(words[i + 1..])| else 0
  {
    assert words[i..][1..] == words[i + 1..];
  }

  lemma {:induction false} SpacedChars(words: seq<string>)
    requires forall j, k :: 0 <= j < |words| && 0 <= k < |words[j]| ==> IsTokenChar(words[j][k])
    ensures forall k :: 0 <= k < |Spaced(words)| ==> IsTokenChar(Spaced(words)[k]) || Spaced(words)[k] == ' '
  {
    hide IsTokenChar;
    if |words| > 1 {
      var rest := words[1..];
      assert forall j :: 0 <= j < |rest| ==> rest[j] == words[j + 1];
      SpacedChars(rest);
    }
  }

  /** Every argument that the CLI checks is printed as a field of token characters. */
  predicate Printable(word: string) {
    word != "" && forall k :: 0 <= k < |word| ==> IsTokenChar(word[k])
  }

  predicate CreateOk(id: string, kernel: string, rootfs: string, vcpus: nat, memory: nat) {
    ValidId(id) && ValidGuestPath(kernel) && ValidGuestPath(rootfs) && 1 <= vcpus <= 16 && 128 <= memory <= 16384
  }

  lemma CreateWordsPrintable(id: string, kernel: string, rootfs: string, vcpus: nat, memory: nat)
    requires CreateOk(id, kernel, rootfs, vcpus, memory)
    ensures var words := CreateWords(id, kernel, rootfs, vcpus, memory);
            forall j :: 0 <= j < |words| ==> Printable(words[j])
  {
    hide HasDots, Decimal;
    assert Printable("create");
    PairPrintable("id", id);
    PairPrintable("kernel", kernel);
    PairPrintable("rootfs", rootfs);
    PairPrintable("vcpus", Decimal(vcpus));
    PairPrintable("memory_mib", Decimal(memory));
  }

  lemma PairPrintable(key: string, value: string)
    requires forall k :: 0 <= k < |key| ==> IsTokenChar(key[k])
    requires forall k :: 0 <= k < |value| ==> IsTokenChar(value[k])
    ensures Printable(Pair(key, value))
  {
  }

  /** The words of a printed line come back, on both sides. */
  lemma CreateWordsComeBack(id: string, kernel: string, rootfs: string, vcpus: nat, memory: nat, shell: bool)
    requires CreateOk(id, kernel, rootfs, vcpus, memory)
    ensures Words(CreateLine(id, kernel, rootfs, vcpus, memory), shell)
         == CreateWords(id, kernel, rootfs, vcpus, memory)
    ensures forall k :: 0 <= k < |CreateLine(id, kernel, rootfs, vcpus, memory)| ==>
      !BadChar(CreateLine(id, kernel, rootfs, vcpus, memory)[k])
  {
    var words := CreateWords(id, kernel, rootfs, vcpus, memory);
    CreateWordsPrintable(id, kernel, rootfs, vcpus, memory);
    hide CreateWords, CreateOk;
    forall j | 0 <= j < |words| ensures words[j] != "" && NoSpace(words[j]) {
      assert Printable(words[j]);
    }
    SpacedChars(words);
    WordsOfSpaced(words, shell);
  }

  lemma CreateLength(id: string, kernel: string, rootfs: string, vcpus: nat, memory: nat)
    requires CreateOk(id, kernel, rootfs, vcpus, memory)
    ensures 0 < |CreateLine(id, kernel, rootfs, vcpus, memory)| <= LINE_LIMIT
  {
    hide HasDots, Decimal, Spaced;
    var words := CreateWords(id, kernel, rootfs, vcpus, memory);
    DecimalLength(vcpus);
    DecimalLength(memory);
    assert words[0..] == words;
    SpacedTail(words, 0);
    SpacedTail(words, 1);
    SpacedTail(words, 2);
    SpacedTail(words, 3);
    SpacedTail(words, 4);
    SpacedTail(words, 5);
  }

  lemma CreateSize(id: string, kernel: string, rootfs: string, vcpus: nat, memory: nat)
    requires CreateOk(id, kernel, rootfs, vcpus, memory)
    ensures var line := CreateLine(id, kernel, rootfs, vcpus, memory);
            line != "" && Size(line) <= LINE_LIMIT
  {
    hide CreateOk, Spaced, Size, CreateWords;
    CreateLength(id, kernel, rootfs, vcpus, memory);
    CreateWordsPrintable(id, kernel, rootfs, vcpus, memory);
    var words := CreateWords(id, kernel, rootfs, vcpus, memory);
    forall j, k | 0 <= j < |words| && 0 <= k < |words[j]| ensures IsTokenChar(words[j][k]) {
      assert Printable(words[j]);
    }
    SpacedChars(words);
    SizeOfAscii(CreateLine(id, kernel, rootfs, vcpus, memory));
  }

  function CreateFields(id: string, kernel: string, rootfs: string, vcpus: nat, memory: nat): map<string, string> {
    map["id" := id, "kernel" := kernel, "rootfs" := rootfs, "vcpus" := Decimal(vcpus), "memory_mib" := Decimal(memory)]
  }

  /** The five fields, one by one. */
  predicate Five(tokens: seq<string>, id: string, kernel: string, rootfs: string, vcpus: nat, memory: nat) {
    && |tokens| == 5
    && KeyOf(tokens[0]) == "id" && KeyOf(tokens[1]) == "kernel" && KeyOf(tokens[2]) == "rootfs"
    && KeyOf(tokens[3]) == "vcpus" && KeyOf(tokens[4]) == "memory_mib"
    && ValueOf(tokens[0]) == id && ValueOf(tokens[1]) == kernel && ValueOf(tokens[2]) == rootfs
    && ValueOf(tokens[3]) == Decimal(vcpus) && ValueOf(tokens[4]) == Decimal(memory)
    && HasValue(tokens[0]) && HasValue(tokens[1]) && HasValue(tokens[2]) && HasValue(tokens[3]) && HasValue(tokens[4])
  }

  lemma CreateTokensAreFive(id: string, kernel: string, rootfs: string, vcpus: nat, memory: nat)
    ensures Five(CreateTokens(id, kernel, rootfs, vcpus, memory), id, kernel, rootfs, vcpus, memory)
  {
    hide KeyOf, ValueOf, HasValue, Decimal, Pair;
    KeyOfPair("id", id);
    KeyOfPair("kernel", kernel);
    KeyOfPair("rootfs", rootfs);
    KeyOfPair("vcpus", Decimal(vcpus));
    KeyOfPair("memory_mib", Decimal(memory));
  }

  lemma FiveAreDistinct(tokens: seq<string>, id: string, kernel: string, rootfs: string, vcpus: nat, memory: nat)
    requires Five(tokens, id, kernel, rootfs, vcpus, memory)
    ensures Distinct(tokens) && Required("create") <= Keys(tokens)
  {
    hide ValueOf, HasValue, Decimal, KeyOf;
    assert KeyOf(tokens[0]) in Keys(tokens) && KeyOf(tokens[1]) in Keys(tokens) && KeyOf(tokens[2]) in Keys(tokens);
  }

  lemma FieldsOfFive(tokens: seq<string>, id: string, kernel: string, rootfs: string, vcpus: nat, memory: nat)
    requires Five(tokens, id, kernel, rootfs, vcpus, memory)
    ensures FieldsOf(tokens) == CreateFields(id, kernel, rootfs, vcpus, memory)
  {
    NoFieldsYet(tokens);
    hide KeyOf, ValueOf, HasValue, Decimal, FieldsOf;
    FieldsStep(tokens, 0);
    FieldsStep(tokens, 1);
    FieldsStep(tokens, 2);
    FieldsStep(tokens, 3);
    FieldsStep(tokens, 4);
    assert tokens[..5] == tokens;
  }

  /** Every field is one that both sides know. */
  lemma FiveAreReadable(tokens: seq<string>, id: string, kernel: string, rootfs: string, vcpus: nat, memory: nat,
                        k: nat)
    requires Five(tokens, id, kernel, rootfs, vcpus, memory) && CreateOk(id, kernel, rootfs, vcpus, memory) && k < 5
    ensures Allowed("create").Some? && Readable(tokens[k], Allowed("create").value)
  {
    hide ValueOf, HasValue, Decimal, KeyOf, HasDots;
  }

  lemma FiveAreScanned(tokens: seq<string>, id: string, kernel: string, rootfs: string, vcpus: nat, memory: nat)
    requires Five(tokens, id, kernel, rootfs, vcpus, memory) && CreateOk(id, kernel, rootfs, vcpus, memory)
    ensures Allowed("create").Some?
    ensures Scan(Allowed("create").value, tokens, 0, map[]) == Ok(CreateFields(id, kernel, rootfs, vcpus, memory))
  {
    FiveAreDistinct(tokens, id, kernel, rootfs, vcpus, memory);
    FieldsOfFive(tokens, id, kernel, rootfs, vcpus, memory);
    forall k | 0 <= k < |tokens| ensures Readable(tokens[k], Allowed("create").value) {
      FiveAreReadable(tokens, id, kernel, rootfs, vcpus, memory, k);
    }
    NoFieldsYet(tokens);
    hide HasDots, Decimal, FieldsOf, Scan, Five, Readable, CreateFields, Distinct, CreateOk;
    ScanAccepts(Allowed("create").value, tokens, 0);
  }

  /** The shell reads back exactly what was printed, and its own checks accept it. */
  lemma PrintedCreateIsRead(id: string, kernel: string, rootfs: string, vcpus: nat, memory: nat)
    requires CreateOk(id, kernel, rootfs, vcpus, memory)
    ensures GuestReads(CreateLine(id, kernel, rootfs, vcpus, memory))
         == Ok(("create", CreateFields(id, kernel, rootfs, vcpus, memory)))
    ensures ValidShellPath(kernel) && ValidShellPath(rootfs)
    ensures Number(Decimal(vcpus)) == Some(vcpus) && Number(Decimal(memory)) == Some(memory)
  {
    PathIsReadable(kernel);
    PathIsReadable(rootfs);
    NumberOfDecimal(vcpus);
    NumberOfDecimal(memory);
    CreateWordsComeBack(id, kernel, rootfs, vcpus, memory, true);
    CreateSize(id, kernel, rootfs, vcpus, memory);
    var words := CreateWords(id, kernel, rootfs, vcpus, memory);
    assert words[0] == "create";
    CreateTokensAreFive(id, kernel, rootfs, vcpus, memory);
    FiveAreScanned(words[1..], id, kernel, rootfs, vcpus, memory);
    hide Decimal, Words, Scan, CreateWords, CreateLine, CreateTokens, CreateFields, CreateOk, ValidShellPath, Allowed;
  }

  lemma PathIsReadable(path: string)
    requires ValidGuestPath(path)
    ensures ValidShellPath(path)
  {
    hide HasDots;
  }

  lemma NoFieldsYet(tokens: seq<string>)
    ensures FieldsOf(tokens[..0]) == map[]
  {
  }

  lemma CreateTokenLength(id: string, kernel: string, rootfs: string, vcpus: nat, memory: nat, k: nat)
    requires CreateOk(id, kernel, rootfs, vcpus, memory) && k < 5
    ensures |CreateTokens(id, kernel, rootfs, vcpus, memory)[k]| <= TOKEN_LIMIT <==>
      (k == 1 ==> |kernel| <= 1017) && (k == 2 ==> |rootfs| <= 1017)
  {
    DecimalLength(vcpus);
    DecimalLength(memory);
    hide Decimal, HasDots;
  }

  lemma CreateTokenOk(id: string, kernel: string, rootfs: string, vcpus: nat, memory: nat, k: nat)
    requires CreateOk(id, kernel, rootfs, vcpus, memory) && k < 5
    ensures var token := CreateTokens(id, kernel, rootfs, vcpus, memory)[k];
            TokenOk(token, Allowed("create").value) <==> (k == 1 ==> |kernel| <= 1017) && (k == 2 ==> |rootfs| <= 1017)
  {
    var tokens := CreateTokens(id, kernel, rootfs, vcpus, memory);
    CreateTokensAreFive(id, kernel, rootfs, vcpus, memory);
    CreateTokenLength(id, kernel, rootfs, vcpus, memory, k);
    CreateWordsPrintable(id, kernel, rootfs, vcpus, memory);
    assert CreateWords(id, kernel, rootfs, vcpus, memory)[k + 1] == tokens[k];
    hide CreateTokens, CreateWords, Printable;
    FiveAreReadable(tokens, id, kernel, rootfs, vcpus, memory, k);
    PathsAreValid(tokens, id, kernel, rootfs, vcpus, memory, k);
    hide *;
    TokenOkWhenShort(tokens[k], Allowed("create").value);
  }

  lemma PathsAreValid(tokens: seq<string>, id: string, kernel: string, rootfs: string, vcpus: nat, memory: nat, k: nat)
    requires Five(tokens, id, kernel, rootfs, vcpus, memory) && CreateOk(id, kernel, rootfs, vcpus, memory) && k < 5
    ensures KeyOf(tokens[k]) in {"kernel", "rootfs"} ==> ValidGuestPath(ValueOf(tokens[k]))
  {
    hide KeyOf, ValueOf, HasValue, Decimal, ValidGuestPath, ValidId;
  }

  lemma TokenOkWhenShort(token: string, allowed: set<string>)
    requires Readable(token, allowed) && Printable(token)
    requires KeyOf(token) in {"kernel", "rootfs"} ==> ValidGuestPath(ValueOf(token))
    ensures TokenOk(token, allowed) <==> |token| <= TOKEN_LIMIT
  {
    hide KeyOf, ValueOf, IsTokenChar, ValidGuestPath;
  }

  /**
    The client sends a printed line exactly when both paths leave room for their key in a
    token: a path may be valid on its own and still be too long for a request.
   */
  lemma PrintedCreateIsSent(id: string, kernel: string, rootfs: string, vcpus: nat, memory: nat)
    requires CreateOk(id, kernel, rootfs, vcpus, memory)
    ensures ClientAccepts(CreateLine(id, kernel, rootfs, vcpus, memory)) <==> |kernel| <= 1017 && |rootfs| <= 1017
  {
    CreateWordsComeBack(id, kernel, rootfs, vcpus, memory, false);
    CreateSize(id, kernel, rootfs, vcpus, memory);
    CreateTokensAreFive(id, kernel, rootfs, vcpus, memory);
    var tokens, allowed := CreateTokens(id, kernel, rootfs, vcpus, memory), Allowed("create").value;
    FiveAreDistinct(tokens, id, kernel, rootfs, vcpus, memory);
    forall k: nat | k < 5
      ensures TokenOk(tokens[k], allowed) <==> (k == 1 ==> |kernel| <= 1017) && (k == 2 ==> |rootfs| <= 1017)
    {
      CreateTokenOk(id, kernel, rootfs, vcpus, memory, k);
    }
    hide CreateTokens, CreateLine, Words, TokenOk, BadChar, Distinct, Required, Keys;
    assert TokenOk(tokens[1], allowed) <==> |kernel| <= 1017;
    assert TokenOk(tokens[2], allowed) <==> |rootfs| <= 1017;
  }

  // ----- The other printed lines -----

  /** An action, its id and its force flag, as the CLI prints them. */
  datatype Order = Capabilities | Inspect(id: Option<string>) | Start(sid: string) | Stop(tid: string, force: bool)

  predicate OrderOk(o: Order) {
    match o
    case Capabilities => true
    case Inspect(id) => id.Some? ==> ValidId(id.value)
    case Start(id) => ValidId(id)
    case Stop(id, _) => ValidId(id)
  }

  function OrderWords(o: Order): seq<string> {
    match o
    case Capabilities => ["capabilities"]
    case Inspect(None) => ["inspect"]
    case Inspect(Some(id)) => ["inspect", Pair("id", id)]
    case Start(id) => ["start", Pair("id", id)]
    case Stop(id, force) => ["stop", Pair("id", id), Pair("force", if force then "1" else "0")]
  }

  function OrderFields(o: Order): map<string, string> {
    match o
    case Capabilities => map[]
    case Inspect(None) => map[]
    case Inspect(Some(id)) => map["id" := id]
    case Start(id) => map["id" := id]
    case Stop(id, force) => map["id" := id, "force" := if force then "1" else "0"]
  }

  lemma IdToken(id: string, allowed: set<string>)
    requires ValidId(id) && "id" in allowed
    ensures TokenOk(Pair("id", id), allowed) && Printable(Pair("id", id)) && |Pair("id", id)| <= 67
    ensures KeyOf(Pair("id", id)) == "id" && ValueOf(Pair("id", id)) == id
  {
    KeyOfPair("id", id);
    PairPrintable("id", id);
    hide KeyOf, ValueOf, HasValue;
  }

  lemma ForceToken(force: bool, allowed: set<string>)
    requires "force" in allowed
    ensures var value := if force then "1" else "0";
            var token := Pair("force", value);
            && TokenOk(token, allowed) && Printable(token) && |token| <= 7
            && KeyOf(token) == "force" && ValueOf(token) == value
  {
    var value := if force then "1" else "0";
    KeyOfPair("force", value);
    PairPrintable("force", value);
    hide KeyOf, ValueOf, HasValue, ValidId;
  }

  lemma NoFields()
    ensures FieldsOf([]) == map[]
  {
  }

  lemma OneToken(a: string)
    ensures FieldsOf([a]) == map[KeyOf(a) := ValueOf(a)] && Keys([a]) == {KeyOf(a)} && Distinct([a])
  {
    assert [a][..0] == [];
  }

  lemma TwoTokens(a: string, b: string)
    ensures FieldsOf([a, b]) == map[KeyOf(a) := ValueOf(a)][KeyOf(b) := ValueOf(b)]
    ensures Keys([a, b]) == {KeyOf(a), KeyOf(b)} && (KeyOf(a) != KeyOf(b) ==> Distinct([a, b]))
  {
    OneToken(a);
    hide KeyOf, ValueOf;
    assert [a, b][..1] == [a];
    assert KeyOf([a, b][0]) in Keys([a, b]) && KeyOf([a, b][1]) in Keys([a, b]);
  }

  /** An action, and tokens that the client lets through and that say these fields. */
  predicate Sendable(words: seq<string>, fields: map<string, string>) {
    && 1 <= |words| <= 3 && TokensOk(words[0], words[1..]) && FieldsOf(words[1..]) == fields
    && forall k :: 0 <= k < |words| ==> Printable(words[k]) && |words[k]| <= 67
  }

  lemma ActionAlone(action: string)
    requires action in {"capabilities", "inspect"}
    ensures Sendable([action], map[])
  {
    assert [action][1..] == [];
    NoFields();
    KeysAtFirst();
    assert Printable("capabilities") && Printable("inspect");
    hide Printable, TokenOk;
  }

  lemma ActionWithId(action: string, id: string)
    requires action in {"inspect", "start"} && ValidId(id)
    ensures Sendable([action, Pair("id", id)], map["id" := id])
  {
    var words := [action, Pair("id", id)];
    assert words[1..] == [words[1]];
    IdToken(id, {"id"});
    OneToken(words[1]);
    assert Printable("inspect") && Printable("start");
    hide Printable, TokenOk, KeyOf, ValueOf, ValidId, Pair;
  }

  lemma StopWithForce(id: string, force: bool)
    requires ValidId(id)
    ensures var value := if force then "1" else "0";
            Sendable(["stop", Pair("id", id), Pair("force", value)], map["id" := id, "force" := value])
  {
    var value := if force then "1" else "0";
    var words := ["stop", Pair("id", id), Pair("force", value)];
    assert words[1..] == [words[1], words[2]];
    IdToken(id, {"id", "force"});
    ForceToken(force, {"id", "force"});
    TwoTokens(words[1], words[2]);
    assert Printable("stop");
    hide Printable, TokenOk, KeyOf, ValueOf, ValidId, Pair;
  }

  lemma OrderIsSendable(o: Order)
    requires OrderOk(o)
    ensures Sendable(OrderWords(o), OrderFields(o))
  {
    hide Sendable, Pair, ValidId;
    match o
    case Capabilities => ActionAlone("capabilities");
    case Inspect(None) => ActionAlone("inspect");
    case Inspect(Some(id)) => ActionWithId("inspect", id);
    case Start(id) => ActionWithId("start", id);
    case Stop(id, force) => StopWithForce(id, force);
  }

  lemma {:induction false} SpacedSize(words: seq<string>)
    requires forall k :: 0 <= k < |words| ==> |words[k]| <= 67
    ensures |Spaced(words)| <= 68 * |words|
  {
    if |words| > 1 {
      var rest := words[1..];
      assert forall k :: 0 <= k < |rest| ==> rest[k] == words[k + 1];
      SpacedSize(rest);
    }
  }

  lemma NothingHasNoWords()
    ensures Words("", false) == []
  {
  }

  /** Characters, size and words of a line that is printed from such words. */
  lemma LineOfWords(words: seq<string>)
    requires 1 <= |words| <= 3 && forall k :: 0 <= k < |words| ==> Printable(words[k]) && |words[k]| <= 67
    ensures var line := Spaced(words);
            && line != "" && Size(line) <= LINE_LIMIT && Words(line, false) == words
            && forall k :: 0 <= k < |line| ==> IsTokenChar(line[k]) || line[k] == ' '
  {
    hide Size, Words, IsTokenChar, IsSpace, Spaced;
    var line := Spaced(words);
    forall j, k | 0 <= j < |words| && 0 <= k < |words[j]| ensures IsTokenChar(words[j][k]) {
      assert Printable(words[j]);
    }
    forall j | 0 <= j < |words| ensures words[j] != "" && NoSpace(words[j]) {
      assert Printable(words[j]);
      PrintableHasNoSpace(words[j]);
    }
    SpacedChars(words);
    SpacedSize(words);
    TokenCharsAreAscii(line);
    SizeOfAscii(line);
    WordsOfSpaced(words, false);
    NothingHasNoWords();
  }

  lemma PrintableHasNoSpace(word: string)
    requires Printable(word)
    ensures word != "" && NoSpace(word)
  {
  }

  lemma TokenCharsAreAscii(s: string)
    requires forall k :: 0 <= k < |s| ==> IsTokenChar(s[k]) || s[k] == ' '
    ensures forall k :: 0 <= k < |s| ==> s[k] < 0x80 as char && !BadChar(s[k])
    ensures forall k :: 0 <= k < |s| && IsSpace(s[k], false) ==> IsSpace(s[k], true)
  {
  }

  /** Every other line that the CLI prints is sent, and the shell reads its action and its fields. */
  lemma PrintedOrderIsSentAndRead(o: Order)
    requires OrderOk(o)
    ensures var line := Spaced(OrderWords(o));
            ClientAccepts(line) && GuestReads(line) == Ok((OrderWords(o)[0], OrderFields(o)))
  {
    OrderIsSendable(o);
    var words := OrderWords(o);
    LineOfWords(words);
    hide OrderWords, OrderFields, OrderOk, TokensOk, FieldsOf, Size, Spaced, Words, IsSpace, BadChar, IsTokenChar,
         Printable, GuestReads;
    TokenCharsAreAscii(Spaced(words));
    SameSpaceSameFields(Spaced(words));
  }
  // ----- What the client sends -----

  predicate Letters(s: string, others: set<char>) {
    forall k :: 0 <= k < |s| ==>
      'a' <= s[k] <= 'z' || 'A' <= s[k] <= 'Z' || '0' <= s[k] <= '9' || s[k] in others
  }

  /** The fields that an action needs, and those that it may have. */
  predicate FieldsFit(action: string, keys: set<string>) {
    || (action == "capabilities" && keys == {})
    || (action == "inspect" && keys <= {"id"})
    || (action == "start" && keys == {"id"})
    || (action == "stop" && {"id"} <= keys <= {"id", "force"})
    || (action == "create" && {"id", "kernel", "rootfs"} <= keys <= {"id", "kernel", "rootfs", "vcpus", "memory_mib"})
  }

  /** A word is a key and a value, and ids and paths are of their kinds. */
  predicate WordFits(word: string, key: string, value: string) {
    && word == key + "=" + value && '=' !in key && value != "" && |word| <= 1024
    && Letters(word, {'_', '.', '-', '/', '=', ':'})
    && (key == "id" ==> |value| <= 64 && value != "." && value != ".." && Letters(value, {'_', '.', '-'}))
    && (key in {"kernel", "rootfs"} ==>
          value[0] == '/' && forall k :: 0 <= k < |value| - 1 ==> !(value[k] == '.' && value[k + 1] == '.'))
  }

  /** Words that are an action and its fields, none of them twice. */
  ghost predicate WordsFit(words: seq<string>, keys: seq<string>, values: seq<string>) {
    && |words| == |keys| + 1 == |values| + 1
    && FieldsFit(words[0], set key | key in keys)
    && (forall j, k :: 0 <= j < k < |keys| ==> keys[j] != keys[k])
    && forall k :: 0 <= k < |keys| ==> WordFits(words[k + 1], keys[k], values[k])
  }

  ghost predicate Fits(words: seq<string>) {
    exists keys, values :: WordsFit(words, keys, values)
  }

  lemma LettersAreChars(s: string)
    ensures Letters(s, {'_', '.', '-', '/', '=', ':'}) <==> forall k :: 0 <= k < |s| ==> IsTokenChar(s[k])
    ensures Letters(s, {'_', '.', '-'}) <==> forall k :: 0 <= k < |s| ==> IsIdChar(s[k])
  {
  }

  lemma ValueIsOfToken(token: string)
    requires HasValue(token)
    ensures token == KeyOf(token) + "=" + ValueOf(token)
    ensures (forall k :: 0 <= k < |token| ==> IsTokenChar(token[k])) ==>
      forall k :: 0 <= k < |ValueOf(token)| ==> IsTokenChar(ValueOf(token)[k])
  {
    hide IsTokenChar;
    var key, value := KeyOf(token), ValueOf(token);
    forall k | 0 <= k < |value| ensures value[k] == token[|key| + 1 + k] {
    }
  }

  lemma WordFitsIff(token: string, allowed: set<string>)
    ensures TokenOk(token, allowed) <==> KeyOf(token) in allowed && WordFits(token, KeyOf(token), ValueOf(token))
  {
    hide KeyOf, ValueOf, Letters, IsIdChar, IsTokenChar;
    var key, value := KeyOf(token), ValueOf(token);
    LettersAreChars(token);
    LettersAreChars(value);
    if token == key + "=" + value {
      assert token[|key|] == '=';
      assert HasValue(token);
    }
    if HasValue(token) {
      ValueIsOfToken(token);
      assert HasDots(value) <==> !(forall k :: 0 <= k < |value| - 1 ==> !(value[k] == '.' && value[k + 1] == '.'));
    }
  }

  lemma WordIsPair(word: string, key: string, value: string)
    requires WordFits(word, key, value)
    ensures KeyOf(word) == key && ValueOf(word) == value
  {
    KeyOfPair(key, value);
  }

  lemma TableFits(action: string, keys: set<string>)
    ensures FieldsFit(action, keys) <==>
      Allowed(action).Some? && keys <= Allowed(action).value && Required(action) <= keys
  {
  }

  lemma KeysAre(tokens: seq<string>, keys: seq<string>)
    requires |keys| == |tokens| && forall k :: 0 <= k < |tokens| ==> KeyOf(tokens[k]) == keys[k]
    ensures (set key | key in keys) == Keys(tokens)
    ensures Distinct(tokens) <==> forall j, k :: 0 <= j < k < |keys| ==> keys[j] != keys[k]
  {
    hide KeyOf;
    forall key ensures key in keys <==> key in Keys(tokens) {
      if key in keys {
        var k :| 0 <= k < |keys| && keys[k] == key;
        assert KeyOf(tokens[k]) in Keys(tokens);
      }
    }
  }

  function KeyList(tokens: seq<string>): (keys: seq<string>)
    ensures |keys| == |tokens| && forall k :: 0 <= k < |keys| ==> keys[k] == KeyOf(tokens[k])
  {
    seq(|tokens|, k requires 0 <= k < |tokens| => KeyOf(tokens[k]))
  }

  function ValueList(tokens: seq<string>): (values: seq<string>)
    ensures |values| == |tokens| && forall k :: 0 <= k < |values| ==> values[k] == ValueOf(tokens[k])
  {
    seq(|tokens|, k requires 0 <= k < |tokens| => ValueOf(tokens[k]))
  }

  lemma SentFits(words: seq<string>)
    requires words != [] && TokensOk(words[0], words[1..])
    ensures Fits(words)
  {
    var action, tokens := words[0], words[1..];
    hide KeyOf, ValueOf, WordFits, TokenOk, FieldsFit, Allowed, Required, Keys, Distinct, KeyList, ValueList;
    var keys, values := KeyList(tokens), ValueList(tokens);
    KeysAre(tokens, keys);
    forall k | 0 <= k < |keys| ensures WordFits(words[k + 1], keys[k], values[k]) && keys[k] in Allowed(action).value {
      WordFitsIff(tokens[k], Allowed(action).value);
      assert TokenOk(tokens[k], Allowed(action).value);
    }
    TableFits(action, set key | key in keys);
    assert WordsFit(words, keys, values);
  }

  lemma FitsIsSent(words: seq<string>, keys: seq<string>, values: seq<string>)
    requires WordsFit(words, keys, values)
    ensures words != [] && TokensOk(words[0], words[1..])
  {
    hide KeyOf, ValueOf, WordFits, TokenOk, FieldsFit, Allowed, Required, Keys, Distinct;
    var action, tokens := words[0], words[1..];
    TableFits(action, set key | key in keys);
    forall k | 0 <= k < |tokens| ensures KeyOf(tokens[k]) == keys[k] && TokenOk(tokens[k], Allowed(action).value) {
      WordIsPair(tokens[k], keys[k], values[k]);
      WordFitsIff(tokens[k], Allowed(action).value);
      assert keys[k] in set key | key in keys;
    }
    KeysAre(tokens, keys);
  }

  predicate NoneBad(request: string) {
    forall k :: 0 <= k < |request| ==> request[k] !in {'\n', '\r', '\0', '\'', '"', '\\'}
  }

  lemma BadCharsAre(request: string)
    ensures NoneBad(request) <==> forall k :: 0 <= k < |request| ==> !BadChar(request[k])
  {
  }

  /** The requests that the client sends, in plain terms. */
  lemma SentIff(request: string)
    ensures ClientAccepts(request) <==>
      request != "" && Size(request) <= 4096 && NoneBad(request) && Fits(Words(request, false))
  {
    hide Words, TokensOk, WordsFit, Size, BadChar, NoneBad;
    var words := Words(request, false);
    BadCharsAre(request);
    if words != [] && TokensOk(words[0], words[1..]) {
      SentFits(words);
    }
    if keys, values :| WordsFit(words, keys, values) {
      FitsIsSent(words, keys, values);
    }
  }
}
