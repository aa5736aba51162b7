/**
  `locate`, `boolean_field` and `disabled_config` of guest/docker-shutdown.rs: they
  work on bytes and positions, and are proved to do what DockerConfig says on trees.
 */
module ConfigEditor {
  import opened Outcomes
  import opened Utf8
  import opened JsonGrammar
  import opened JsonParser
  import opened JsonStrings
  import opened JsonRoundTrip
  import opened JsonScanner
  import opened DockerConfig

  datatype Scanned = Scanned(found: Option<Located>, end: nat)

  /** The wanted member among those from position `i` on, and the position after the closing brace. */
  ghost function Scan(s: Bytes, i: nat, seen: set<seq<Scalar>>, wanted: seq<Scalar>)
    : Result<Scanned, JsonError>
  {
    var p := ReadMembers(s, i, 1, seen);
    if p.Bad? then Err(p.error)
    else
      assert MembersOk(p.value) by { MembersSound(s, i, 1, seen); }
      Ok(Scanned(Find(p.value, i, wanted), p.end))
  }

  /** The scan of a whole object, after its opening brace and white space. */
  ghost function FirstScan(s: Bytes, k: nat, wanted: seq<Scalar>): Result<Scanned, JsonError> {
    if At(s, k, CLOSE_BRACE) then Ok(Scanned(None, k + 1)) else Scan(s, k, {}, wanted)
  }

  function Later(here: Option<Located>, later: Option<Located>): Option<Located> {
    if later.Some? then later else here
  }

  /** The scan of members that follow one at which `here` was found. */
  function After(here: Option<Located>, rest: Result<Scanned, JsonError>): Result<Scanned, JsonError> {
    if rest.Err? then rest else Ok(Scanned(Later(here, rest.value.found), rest.value.end))
  }

  /** One step of the scan: the position of a value is where the cursor stands when it is read. */
  lemma ScanStep(s: Bytes, i: nat, seen: set<seq<Scalar>>, wanted: seq<Scalar>)
    ensures Scan(s, i, seen, wanted) ==
            match ReadMember(s, i, 1, seen)
            case Bad(e) => Err(e)
            case Done(m, i1) =>
              var here := if Decoded(m.key) == wanted then Some(LocateMember(m, i)) else None;
              if At(s, i1, CLOSE_BRACE) then Ok(Scanned(here, i1 + 1))
              else if At(s, i1, COMMA) then
                After(here, Scan(s, WsEnd(s, i1 + 1), seen + {Decoded(m.key)}, wanted))
              else Err(InvalidObject)
  {
    hide ReadMember, Decoded, Denotes, WsEnd, MemberOk, MemberBytes, LocateMember, Holds, Height;
    var p := ReadMember(s, i, 1, seen);
    if p.Done? {
      MemberSound(s, i, 1, seen);
      if At(s, p.end, CLOSE_BRACE) {
        var ms := Members(p.value, [], NoMembers);
        assert ReadMembers(s, i, 1, seen) == Done(ms, p.end + 1);
        assert Find(NoMembers, Next(ms, i), wanted) == None;
      } else if At(s, p.end, COMMA) {
        var i2 := WsEnd(s, p.end + 1);
        var t := ReadMembers(s, i2, 1, seen + {Decoded(p.value.key)});
        if t.Done? {
          MembersSound(s, i2, 1, seen + {Decoded(p.value.key)});
          var ms := Members(p.value, s[p.end + 1..i2], t.value);
          assert ReadMembers(s, i, 1, seen) == Done(ms, t.end);
          assert Next(ms, i) == i2;
        }
      }
    }
  }

  /** The position of a value is where the cursor stands before and after it is read. */
  lemma ScanPositions(s: Bytes, i: nat, seen: set<seq<Scalar>>, i1: nat, i3: nat)
    requires ReadMember(s, i, 1, seen).Done?
    requires EndOf(ReadString(s, i)) == Ok(i1) && i3 == WsEnd(s, WsEnd(s, i1) + 1)
    ensures var v := ReadValue(s, i3, 1);
            && v.Done?
            && LocateMember(ReadMember(s, i, 1, seen).value, i) == Located(i3, v.end, BoolOf(v.value))
  {
    hide ReadValue, ReadString, Quoted, Decoded, Denotes, JsonBytes, JsonOk, TextOk, Holds, Height, WsEnd;
    StringSound(s, i);
    ValueSound(s, i3, 1);
  }

  /** What `Locate` returns: the member, the position of the closing brace, and whether there is any member. */
  datatype Location = Location(found: Option<Located>, close: nat, any: bool)

  ghost function LocationOf(data: Bytes, wanted: seq<Scalar>): Result<Location, ConfigError> {
    var p := ReadDocument(data);
    if p.Bad? then Err(Malformed(p.error))
    else
      var d := p.value;
      assert MembersOk(d.members) by { DocumentSound(data); }
      Ok(Location(Find(d.members, MembersAt(d), wanted), CloseAt(d), d.members.Members?))
  }

  /** `Location` in terms of positions. */
  lemma LocationParts(s: Bytes, wanted: seq<Scalar>)
    ensures var i := WsEnd(s, 0);
            var r := LocationOf(s, wanted);
            if !At(s, i, OPEN_BRACE) then r == Err(Malformed(NotAnObject))
            else
              var k := WsEnd(s, i + 1);
              var x := FirstScan(s, k, wanted);
              if x.Err? then r == Err(Malformed(x.error))
              else if WsEnd(s, x.value.end) != |s| then r == Err(Malformed(TrailingData))
              else r == Ok(Location(x.value.found, x.value.end - 1, !At(s, k, CLOSE_BRACE)))
  {
    hide WsEnd, ReadObject, MembersOk, MembersBytes, Holds, Decoded, Scan, FirstScan, Find;
    var i := WsEnd(s, 0);
    if At(s, i, OPEN_BRACE) {
      ObjectParts(s, WsEnd(s, i + 1), wanted);
    }
  }

  lemma ObjectParts(s: Bytes, k: nat, wanted: seq<Scalar>)
    ensures var p := ReadObject(s, k, 1);
            if p.Bad? then FirstScan(s, k, wanted) == Err(p.error)
            else
              && MembersOk(p.value) && FirstScan(s, k, wanted) == Ok(Scanned(Find(p.value, k, wanted), p.end))
              && p.end == k + |MembersBytes(p.value)| + 1 && p.value.Members? == !At(s, k, CLOSE_BRACE)
  {
    hide ReadMembers, MembersBytes, Holds, Decoded;
    if ReadObject(s, k, 1).Done? {
      ObjectSound(s, k, 1);
    }
  }

  datatype Field = Field(key: seq<Scalar>, value: Located)

  /** The body of the loop in `locate`: one member, up to the white space after it. */
  method NextField(json: Json, keys: set<seq<Scalar>>) returns (r: Result<Field, JsonError>)
    requires json.Valid()
    modifies json
    ensures var i := WsEnd(json.data, old(json.at));
            var p := ReadMember(json.data, i, 1, keys);
            if p.Bad? then r == Err(p.error)
            else r == Ok(Field(Decoded(p.value.key), LocateMember(p.value, i))) && json.Valid() && json.at == p.end
  {
    hide ReadString, ReadValue, ReadMember, Decoded, WsEnd, LocateMember;
    ghost var i := WsEnd(json.data, json.at);
    MemberParts(json.data, i, 1, keys);
    var key :- json.String();
    ghost var i1 := json.at;
    if key in keys {
      return Err(DuplicateKey(key));
    }
    var _ :- json.Byte(COLON);
    json.Whitespace();
    var start := json.at;
    SkipTwice(json.data, start);
    var boolean :- json.Value(1);
    ScanPositions(json.data, i, keys, i1, start);
    var value := Located(start, json.at, boolean);
    json.Whitespace();
    return Ok(Field(key, value));
  }

  method Locate(data: Bytes, wanted: seq<Scalar>) returns (r: Result<Location, ConfigError>)
    ensures r == LocationOf(data, wanted)
  {
    hide LocationOf, Scan, ReadMember, Decoded, WsEnd, LocateMember;
    LocationParts(data, wanted);
    var json := new Json(data);
    var brace := json.Byte(OPEN_BRACE);
    if brace.Err? {
      return Err(Malformed(NotAnObject));
    }
    var found: Option<Located> := None;
    var keys: set<seq<Scalar>> := {};
    var any := false;
    json.Whitespace();
    ghost var first := json.at;
    SkipTwice(data, json.at);
    if !At(json.data, json.at, CLOSE_BRACE) {
      while true
        invariant json.Valid() && json.data == data && first <= json.at
        invariant Scan(data, first, {}, wanted) == After(found, Scan(data, WsEnd(data, json.at), keys, wanted))
        decreases |data| - json.at
      {
        ScanStep(data, WsEnd(data, json.at), keys, wanted);
        any := true;
        var member := NextField(json, keys);
        if member.Err? {
          return Err(Malformed(member.error));
        }
        keys := keys + {member.value.key};
        if member.value.key == wanted {
          found := Some(member.value.value);
        }
        if At(json.data, json.at, COMMA) {
          json.at := json.at + 1;
        } else if At(json.data, json.at, CLOSE_BRACE) {
          break;
        } else {
          return Err(Malformed(InvalidObject));
        }
      }
    }
    SkipTwice(data, json.at);
    // The cursor stands on the closing brace here, so this cannot fail.
    var _ := json.Byte(CLOSE_BRACE);
    var close := json.at - 1;
    json.Whitespace();
    if json.at != |data| {
      return Err(Malformed(TrailingData));
    }
    return Ok(Location(found, close, any));
  }

  /** `boolean_field` */
  method ReadBooleanField(data: Bytes, key: seq<Scalar>) returns (r: Result<Option<bool>, ConfigError>)
    ensures r == BooleanField(data, key)
  {
    hide ReadDocument, DocumentOk;
    FieldLocation(data, key);
    var location :- Locate(data, key);
    if location.found.None? {
      return Ok(None);
    }
    var boolean := location.found.value.boolean;
    return if boolean.None? then Err(NotABoolean) else Ok(Some(boolean.value));
  }

  lemma FieldLocation(data: Bytes, key: seq<Scalar>)
    ensures var r := LocationOf(data, key);
            if r.Err? then BooleanField(data, key) == Err(r.error)
            else if r.value.found.None? then BooleanField(data, key) == Ok(None)
            else
              var b := r.value.found.value.boolean;
              BooleanField(data, key) == if b.None? then Err(NotABoolean) else Ok(Some(b.value))
  {
    hide ReadDocument;
    if ReadDocument(data).Done? {
      DocumentSound(data);
      var d := ReadDocument(data).value;
      FindIsLookup(d.members, MembersAt(d), key);
    }
  }

  /** "live-restore":false */
  const INSERTION: Bytes := [QUOTE] + LIVE_RESTORE + [QUOTE, COLON] + FALSE

  /** `disabled_config`: a few bytes overwritten or inserted, and the tree changes in one member only. */
  method DisableLiveRestore(original: Bytes) returns (r: Result<Bytes, ConfigError>)
    ensures r == DisabledConfig(original)
  {
    hide DisabledConfig, LocationOf, INSERTION;
    DisabledParts(original);
    var location :- Locate(original, LIVE_RESTORE);
    var data: Bytes := [];
    if location.found.Some? {
      var value := location.found.value;
      if value.boolean.None? {
        return Err(NotABoolean);
      }
      data := data + original[..value.start];
      data := data + FALSE;
      data := data + original[value.end..];
      assert data == Splice(original, value.start, value.end, FALSE);
    } else {
      data := data + original[..location.close];
      if location.any {
        data := data + [COMMA];
      }
      data := data + INSERTION;
      data := data + original[location.close..];
      var text := (if location.any then [COMMA] else []) + INSERTION;
      assert data == Splice(original, location.close, location.close, text);
    }
    if |data| > LIMIT {
      return Err(TooLarge);
    }
    return Ok(data);
  }

  lemma DisabledParts(original: Bytes)
    ensures var r := LocationOf(original, LIVE_RESTORE);
            if r.Err? then DisabledConfig(original) == Err(r.error)
            else if r.value.found.Some? then
              var v := r.value.found.value;
              && v.start <= v.end <= |original|
              && DisabledConfig(original) ==
                 if v.boolean.None? then Err(NotABoolean) else Limited(Splice(original, v.start, v.end, FALSE))
            else
              var c := r.value.close;
              && c <= |original|
              && DisabledConfig(original) ==
                 Limited(Splice(original, c, c,
                                (if r.value.any then [COMMA] else []) + INSERTION))
  {
    hide ReadDocument, DocumentOk, DocumentBytes, MembersBytes, MembersOk, KeysOk, Splice, Disable, Find, Lookup;
    if ReadDocument(original).Done? {
      DocumentSound(original);
      var d := ReadDocument(original).value;
      DocumentMembersOk(d);
      FindIsLookup(d.members, MembersAt(d), LIVE_RESTORE);
      EditedBytes(d);
    }
  }

  lemma EditedBytes(d: Document)
    requires DocumentOk(d) && MembersOk(d.members)
    ensures var l := Find(d.members, MembersAt(d), LIVE_RESTORE);
            if l.Some? then
              && l.value.start <= l.value.end <= |DocumentBytes(d)|
              && DocumentBytes(Disable(d)) == Splice(DocumentBytes(d), l.value.start, l.value.end, FALSE)
            else
              && CloseAt(d) <= |DocumentBytes(d)|
              && DocumentBytes(Disable(d)) ==
                 Splice(DocumentBytes(d), CloseAt(d), CloseAt(d),
                        (if d.members.Members? then [COMMA] else []) + INSERTION)
  {
    hide DocumentOk, DocumentBytes, MembersBytes, MembersOk, KeysOk, Splice, Disable, Find, Lookup, MemberBytes;
    FindIsLookup(d.members, MembersAt(d), LIVE_RESTORE);
    if Lookup(d.members, LIVE_RESTORE).Some? {
      ReplacedIsDisabled(d, Find(d.members, MembersAt(d), LIVE_RESTORE).value);
    } else {
      InsertedIsDisabled(d);
      NewMemberOk();
    }
  }

  function Limited(data: Bytes): Result<Bytes, ConfigError> {
    if |data| > LIMIT then Err(TooLarge) else Ok(data)
  }
}
