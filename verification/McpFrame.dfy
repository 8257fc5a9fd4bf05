/** The text frame that carries an MCP request through an agent's message channel. */
module McpFrame {
  import opened Prelude

  /** Position of the first `c` in `s`, or `|s|`. */
  function Find(s: string, c: char): (i: nat)
    ensures i <= |s| && (i < |s| ==> s[i] == c)
    ensures forall j | 0 <= j < i :: s[j] != c
  {
    if s == [] || s[0] == c then 0
    else 1 + Find(s[1..], c)
  }

  /** `s.splitn(n, sep)` for a character separator. */
  function SplitN(s: string, n: nat, sep: char): seq<string>
    requires n >= 1
    decreases n
  {
    var i := Find(s, sep);
    if n == 1 || i == |s| then [s] else [s[..i]] + SplitN(s[i + 1..], n - 1, sep)
  }

  const TAG: string := "mcp_request"

  /** What `handle_call_tool_request` sends: `mcp_request:id:json`. */
  function Frame(id: string, json: string): string { TAG + [':'] + (id + [':'] + json) }

  /** What the event loop recognises: the request id and the content, or no frame at all. */
  function ParseFrame(content: string): Option<(string, string)> {
    if TAG + [':'] <= content then
      var parts := SplitN(content, 3, ':');
      if |parts| >= 3 then Some((parts[1], parts[2])) else None
    else None
  }

  lemma {:induction false} FindAt(s: string, c: char, t: string)
    requires c !in s
    ensures Find(s + [c] + t, c) == |s|
  {
    var all := s + [c] + t;
    assert all[|s|] == c;
    assert forall j | 0 <= j < |s| :: all[j] == s[j] && s[j] in s;
  }

  lemma {:induction false} SplitNAt(s: string, c: char, t: string, n: nat)
    requires n >= 2 && c !in s
    ensures SplitN(s + [c] + t, n, c) == [s] + SplitN(t, n - 1, c)
  {
    FindAt(s, c, t);
    assert (s + [c] + t)[..|s|] == s && (s + [c] + t)[|s| + 1..] == t;
  }

  /** A frame's tag is split off, leaving the rest to be split once more. */
  lemma {:induction false} SplitTag(rest: string)
    ensures SplitN(TAG + [':'] + rest, 3, ':') == [TAG] + SplitN(rest, 2, ':')
  {
    assert ':' !in TAG;
    SplitNAt(TAG, ':', rest, 3);
  }

  /** For a colon-free id and any JSON the frame is read back exactly. */
  lemma FrameRoundTrip(id: string, json: string)
    requires ':' !in id
    ensures ParseFrame(Frame(id, json)) == Some((id, json))
  {
    SplitTag(id + [':'] + json);
    SplitNAt(id, ':', json, 2);
    assert SplitN(json, 1, ':') == [json];
    assert TAG + [':'] <= Frame(id, json);
  }

  lemma {:induction false} SplitNWhole(s: string, c: char, n: nat)
    requires n >= 1 && c !in s
    ensures SplitN(s, n, c) == [s]
  {
    var i := Find(s, c);
    assert i == |s|;
  }

  /** And nothing else is taken for a frame. */
  lemma FrameOnly(content: string)
    requires ParseFrame(content).Some?
    ensures var (id, json) := ParseFrame(content).value; ':' !in id && content == Frame(id, json)
  {
    var rest := content[|TAG| + 1..];
    assert content == TAG + [':'] + rest;
    SplitTag(rest);
    if ':' in rest {
      var i := Find(rest, ':');
      var k :| 0 <= k < |rest| && rest[k] == ':';
      var id, json := rest[..i], rest[i + 1..];
      CutAt(rest, i);
      SplitNAt(id, ':', json, 2);
      FrameRoundTrip(id, json);
    } else {
      SplitNWhole(rest, ':', 2);
    }
  }
}
