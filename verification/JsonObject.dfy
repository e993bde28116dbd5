/** json_get_string of src/json.c: what it returns on the bytes that remain, and its loop. */
module JsonObject {
  import opened CText
  import opened Json

  const NAME_CAP := 128
  const VALUE_CAP := 8192

  datatype Lookup = Found(value: string) | Failed(error: ApiError)

  predicate IsSpace(c: char) {
    c == ' ' || c == '\t' || c == '\n' || c == '\r'
  }

  predicate AllSpace(s: string) {
    forall i | 0 <= i < |s| :: IsSpace(s[i])
  }

  /** skip_spaces: the first position from `p` on that holds no space. */
  function SkipAt(body: string, p: nat): (q: nat)
    requires p <= |body|
    ensures p <= q <= |body| && AllSpace(body[p..q])
    ensures q < |body| ==> !IsSpace(body[q])
    decreases |body| - p
  {
    if p < |body| && IsSpace(body[p]) then SkipAt(body, p + 1) else p
  }

  /** A name, a colon and a string value. */
  function MemberAt(body: string, p: nat): (r: Option<(string, string, nat)>)
    ensures r.Some? ==> p < r.value.2 <= |body|
  {
    match QuotedAt(body, p, NAME_CAP)
    case None => None
    case Some((name, q)) =>
      var colon := SkipAt(body, q);
      if colon >= |body| || body[colon] != ':' then None
      else
        match QuotedAt(body, SkipAt(body, colon + 1), VALUE_CAP)
        case None => None
        case Some((value, next)) => Some((name, value, next))
  }

  /** What a member does to the search: the value found so far, or the error that ends it. */
  function Visit(found: Option<string>, name: string, value: string, field: CString, cap: nat):
      (r: (ApiError, Option<string>))
  {
    if CStr(name) != field then (Ok, found)
    else if found.Some? then (BadRequest, found)
    else if |CStr(value)| + 1 > cap then (PayloadTooLarge, found)
    else (Ok, Some(CStr(value)))
  }

  /** One turn of the loop of json_get_string: it ends with a result, or goes on further right. */
  datatype Turn = Done(result: Lookup) | Again(next: nat, found: Option<string>)

  /** After a member: a comma is consumed, a closing brace is left for the next turn. */
  function AfterMember(body: string, p: nat, found: Option<string>): (t: Turn)
    requires p <= |body|
    ensures t.Again? ==> p <= t.next <= |body|
  {
    var q := SkipAt(body, p);
    if q >= |body| then Done(Failed(BadRequest))
    else if body[q] == ',' then Again(q + 1, found)
    else if body[q] == '}' then Again(q, found)
    else Done(Failed(BadRequest))
  }

  function TurnAt(body: string, p: nat, field: CString, cap: nat, found: Option<string>): (t: Turn)
    requires p <= |body|
    ensures t.Again? ==> p < t.next <= |body|
  {
    var q := SkipAt(body, p);
    if q >= |body| then Done(Failed(BadRequest))
    else if body[q] == '}' then
      if SkipAt(body, q + 1) < |body| then Done(Failed(BadRequest))
      else if found.Some? then Done(Found(found.value)) else Done(Failed(MissingField))
    else
      match MemberAt(body, q)
      case None => Done(Failed(BadRequest))
      case Some((name, value, after)) =>
        var (err, found') := Visit(found, name, value, field, cap);
        if err != Ok then Done(Failed(err)) else AfterMember(body, after, found')
  }

  /** The loop of json_get_string, from position `p` on. */
  function SearchAt(body: string, p: nat, field: CString, cap: nat, found: Option<string>): Lookup
    requires p <= |body|
    decreases |body| - p
  {
    match TurnAt(body, p, field, cap, found)
    case Done(result) => result
    case Again(next, found') => SearchAt(body, next, field, cap, found')
  }

  /** The position after the opening brace. */
  function OpenAt(body: string): (p: Option<nat>)
    ensures p.Some? ==> 0 < p.value <= |body|
  {
    var p := SkipAt(body, 0);
    if p < |body| && body[p] == '{' then Some(p + 1) else None
  }

  function GetString(body: string, field: CString, cap: nat): Lookup {
    if cap == 0 || OpenAt(body).None? then Failed(BadRequest)
    else SearchAt(body, OpenAt(body).value, field, cap, None)
  }

  // ---------- the code ----------

  method SkipSpaces(body: string, start: nat) returns (ptr: nat)
    requires start <= |body|
    ensures ptr == SkipAt(body, start)
  {
    ptr := start;
    while ptr < |body| && IsSpace(body[ptr])
      invariant start <= ptr <= |body|
      invariant SkipAt(body, ptr) == SkipAt(body, start)
    {
      ptr := ptr + 1;
    }
  }

  method ReadMember(body: string, start: nat, name: array<char>, value: array<char>) returns (next: Option<nat>)
    requires start <= |body| && name != value && name.Length == NAME_CAP && value.Length == VALUE_CAP
    modifies name, value
    ensures match MemberAt(body, start)
            case None => next == None
            case Some((n, v, p)) => next == Some(p) && Holds(name[..], n) && Holds(value[..], v)
  {
    var afterName := ReadQuoted(body, start, name);
    if afterName == None {
      return None;
    }
    var ptr := SkipSpaces(body, afterName.value);
    if ptr >= |body| || body[ptr] != ':' {
      return None;
    }
    ptr := SkipSpaces(body, ptr + 1);
    next := ReadQuoted(body, ptr, value);
  }

  /** The buffer and the flag say the same as the value found so far. */
  predicate Keeps(out: seq<char>, found: bool, kept: Option<string>) {
    found == kept.Some? && (found ==> Holds(out, kept.value))
  }

  /** The member at `start`, stored in `out` when it is the wanted field: an error, or the position after it. */
  method TakeMember(body: string, start: nat, field: CString, out: array<char>, found: bool, ghost kept: Option<string>)
      returns (error: ApiError, next: nat, found': bool, ghost kept': Option<string>)
    requires start <= |body| && Keeps(out[..], found, kept)
    modifies out
    ensures match MemberAt(body, start)
            case None => error == BadRequest
            case Some((n, v, p)) =>
              && error == Visit(kept, n, v, field, out.Length).0
              && (error == Ok ==> next == p && kept' == Visit(kept, n, v, field, out.Length).1)
    ensures error == Ok ==> Keeps(out[..], found', kept')
  {
    next, found', kept' := start, found, kept;
    var name, value := new char[NAME_CAP], new char[VALUE_CAP];
    var after := ReadMember(body, start, name, value);
    if after == None {
      return BadRequest, next, found', kept';
    }
    ghost var member := MemberAt(body, start).value;
    var nameText := Load(name, member.0);
    if nameText == field {
      if found {
        return BadRequest, next, found', kept';
      }
      var valueText := Load(value, member.1);
      if |valueText| + 1 > out.Length {
        return PayloadTooLarge, next, found', kept';
      }
      CopyTo(out, 0, valueText + "\0");
      assert out[..] == out[..|valueText| + 1] + out[|valueText| + 1..];
      found', kept' := true, Some(valueText);
    }
    return Ok, after.value, found', kept';
  }

  /** The return value, and on success the value with its terminator in the buffer. */
  predicate Answers(lookup: Lookup, result: ApiError, out: seq<char>) {
    match lookup
    case Found(v) => result == Ok && Holds(out, v)
    case Failed(e) => result == e
  }

  /** One turn of the loop: `more` when the loop goes on at `next`, else the result. */
  method TakeTurn(body: string, start: nat, field: CString, out: array<char>, found: bool, ghost kept: Option<string>)
      returns (more: bool, result: ApiError, next: nat, found': bool, ghost kept': Option<string>)
    requires start <= |body| && Keeps(out[..], found, kept)
    modifies out
    ensures match TurnAt(body, start, field, out.Length, kept)
            case Again(p, kept2) => more && next == p && kept' == kept2 && Keeps(out[..], found', kept')
            case Done(lookup) => !more && Answers(lookup, result, out[..])
  {
    more, next, found', kept' := false, start, found, kept;
    var ptr := SkipSpaces(body, start);
    if ptr >= |body| {
      result := BadRequest;
    } else if body[ptr] == '}' {
      ptr := SkipSpaces(body, ptr + 1);
      result := if ptr != |body| then BadRequest else if found then Ok else MissingField;
    } else {
      result, next, found', kept' := TakeMember(body, ptr, field, out, found, kept);
      if result == Ok {
        next := SkipSpaces(body, next);
        if next >= |body| || (body[next] != ',' && body[next] != '}') {
          result := BadRequest;
        } else {
          more := true;
          next := if body[next] == ',' then next + 1 else next;
        }
      }
    }
  }

  method SearchFrom(body: string, start: nat, field: CString, out: array<char>) returns (result: ApiError)
    requires start <= |body|
    modifies out
    ensures Answers(SearchAt(body, start, field, out.Length, None), result, out[..])
  {
    var ptr, found := start, false;
    ghost var kept: Option<string> := None;
    while true
      invariant ptr <= |body| && Keeps(out[..], found, kept)
      invariant SearchAt(body, ptr, field, out.Length, kept) == SearchAt(body, start, field, out.Length, None)
      decreases |body| - ptr
    {
      var more;
      more, result, ptr, found, kept := TakeTurn(body, ptr, field, out, found, kept);
      if !more {
        return;
      }
    }
  }

  method JsonGetString(body: string, field: CString, out: array<char>) returns (result: ApiError)
    modifies out
    ensures Answers(GetString(body, field, out.Length), result, out[..])
  {
    if out.Length == 0 {
      return BadRequest;
    }
    var start := ReadOpening(body);
    if start == None {
      return BadRequest;
    }
    result := SearchFrom(body, start.value, field, out);
  }

  /** Skip spaces and the opening brace. */
  method ReadOpening(body: string) returns (start: Option<nat>)
    ensures start == OpenAt(body)
  {
    var ptr := SkipSpaces(body, 0);
    return if ptr >= |body| || body[ptr] != '{' then None else Some(ptr + 1);
  }
}
