/**
 Adding the response's nonce to the script tags of an HTML document. `attr` is the text inserted:
 a space and the nonce attribute.
 */
module NonceRewriter {
  import opened Wrappers

  const SCRIPT := "<script"
  const CLOSE := "</script>"

  // The place of the first occurrence.
  function Find(s: string, pattern: string): (r: Option<nat>)
    ensures r.Some? ==> r.value + |pattern| <= |s|
  {
    if pattern <= s then Some(0)
    else if s == [] then None
    else
      var rest := Find(s[1..], pattern);
      if rest.Some? then Some(rest.value + 1) else None
  }

  lemma {:induction false} FindIsFirst(s: string, pattern: string)
    ensures var r := Find(s, pattern);
            && (r.Some? ==> pattern <= s[r.value..])
            && forall i :: 0 <= i < (if r.Some? then r.value else |s|) ==> !(pattern <= s[i..])
  {
    assert s[0..] == s;
    if !(pattern <= s) && s != [] {
      FindIsFirst(s[1..], pattern);
      var r := Find(s, pattern);
      forall i | 0 <= i < (if r.Some? then r.value else |s|) ensures !(pattern <= s[i..]) {
        if 0 < i {
          assert s[i..] == s[1..][i - 1..];
        }
      }
      if r.Some? {
        assert s[r.value..] == s[1..][r.value - 1..];
      }
    }
  }

  predicate IsAsciiWhitespace(c: char) {
    c == ' ' || c == '\t' || c == '\n' || c == '\U{000C}' || c == '\r'
  }

  // Whether a tag is opened is settled by the character behind the name.
  predicate EndsName(s: string, nameEnd: nat) {
    nameEnd < |s| && (IsAsciiWhitespace(s[nameEnd]) || s[nameEnd] == '>')
  }

  // A script tag is opened right here.
  predicate Opens(s: string) {
    SCRIPT <= s && EndsName(s, |SCRIPT|)
  }

  // What follows the name of an opened tag, split behind its '>'; None if it never ends.
  function SplitTag(s: string): (r: Option<(string, string)>)
    requires Opens(s)
    ensures r.Some? ==> |r.value.0| > 0 && |SCRIPT| + |r.value.0| + |r.value.1| == |s|
  {
    var rest := s[|SCRIPT|..];
    match Find(rest, ">")
    case None => None
    case Some(k) => Some((rest[..k + 1], rest[k + 1..]))
  }

  // The script body with its closing tag and what follows; None if it is never closed.
  function SplitBody(s: string): (r: Option<(string, string)>)
    ensures r.Some? ==> |r.value.0| > 0 && |r.value.0| + |r.value.1| == |s|
  {
    match Find(s, CLOSE)
    case None => None
    case Some(k) => Some((s[..k + |CLOSE|], s[k + |CLOSE|..]))
  }

  // The document read one character at a time: `edit` is applied to what follows the name of each
  // script tag up to its '>', and script bodies are not looked into.
  function MapTags(s: string, edit: string -> string): string
    decreases |s|, 0
  {
    if s == [] then []
    else if Opens(s) && SplitTag(s).Some? then
      var (tag, content) := SplitTag(s).value;
      SCRIPT + (edit(tag) + AfterTag(content, edit))
    else [s[0]] + MapTags(s[1..], edit)
  }

  // The script body as it is, and the rest of the document if the body is closed.
  function AfterTag(content: string, edit: string -> string): string
    decreases |content|, 1
  {
    match SplitBody(content)
    case None => content
    case Some((body, rest)) => body + MapTags(rest, edit)
  }

  // What follows the name of each script tag, up to its '>'.
  function Tags(s: string): seq<string> {
    if s == [] then []
    else if Opens(s) && SplitTag(s).Some? then
      var (tag, content) := SplitTag(s).value;
      [tag] + if SplitBody(content).Some? then Tags(SplitBody(content).value.1) else []
    else Tags(s[1..])
  }

  function Add(attr: string): string -> string {
    tag => attr + tag
  }

  function Drop(n: nat): string -> string {
    tag => if n <= |tag| then tag[n..] else tag
  }

  function Each(tags: seq<string>, edit: string -> string): seq<string> {
    if tags == [] then [] else [edit(tags[0])] + Each(tags[1..], edit)
  }

  // ----- The loop -----

  ghost function Nonced(s: string, attr: string): string {
    MapTags(s, Add(attr))
  }

  lemma {:induction false} Associate(a: string, b: string, c: string)
    ensures a + b + c == a + (b + c)
  {
  }

  lemma {:induction false} CopiesPlain(s: string, n: nat, edit: string -> string)
    requires n <= |s| && forall i :: 0 <= i < n ==> !Opens(s[i..])
    ensures MapTags(s, edit) == s[..n] + MapTags(s[n..], edit)
  {
    if n > 0 {
      assert s[0..] == s;
      forall i | 0 <= i < n - 1 ensures !Opens(s[1..][i..]) {
        assert s[1..][i..] == s[i + 1..];
      }
      CopiesPlain(s[1..], n - 1, edit);
      assert s[1..][n - 1..] == s[n..];
    } else {
      assert s[0..] == s;
    }
  }

  lemma {:induction false} CopiesUnended(s: string, edit: string -> string)
    requires '>' !in s[if |s| < |SCRIPT| then |s| else |SCRIPT|..]
    ensures MapTags(s, edit) == s
  {
    if s != [] {
      if Opens(s) {
        FindIsFirst(s[|SCRIPT|..], ">");
      }
      CopiesUnended(s[1..], edit);
    }
  }

  lemma {:induction false} NotHere(s: string, i: nat)
    requires SCRIPT <= s && 0 < i < |SCRIPT|
    ensures !Opens(s[i..])
  {
    assert s[i..][0] == SCRIPT[i] != '<';
  }

  lemma {:induction false} NoScript(s: string, edit: string -> string)
    requires Find(s, SCRIPT).None?
    ensures MapTags(s, edit) == s
  {
    FindIsFirst(s, SCRIPT);
    CopiesPlain(s, |s|, edit);
    assert s[..|s|] == s && s[|s|..] == [];
  }

  // No tag is opened before the place found.
  lemma {:induction false} NoneBefore(s: string, k: nat, edit: string -> string)
    requires Find(s, SCRIPT) == Some(k)
    ensures SCRIPT <= s[k..] && MapTags(s, edit) == s[..k] + MapTags(s[k..], edit)
  {
    FindIsFirst(s, SCRIPT);
    CopiesPlain(s, k, edit);
  }

  lemma {:induction false} AnotherTag(s: string, edit: string -> string)
    requires SCRIPT <= s && !Opens(s)
    ensures MapTags(s, edit) == SCRIPT + MapTags(s[|SCRIPT|..], edit)
  {
    forall i | 0 <= i < |SCRIPT| ensures !Opens(s[i..]) {
      if 0 < i {
        NotHere(s, i);
      }
    }
    CopiesPlain(s, |SCRIPT|, edit);
  }

  lemma {:induction false} UnendedTag(s: string, edit: string -> string)
    requires Opens(s) && Find(s[|SCRIPT|..], ">").None?
    ensures MapTags(s, edit) == s
  {
    var rest := s[|SCRIPT|..];
    FindIsFirst(rest, ">");
    forall i | 0 <= i < |rest| ensures rest[i] != '>' {
      assert !(">" <= rest[i..]);
    }
    CopiesUnended(s, edit);
  }

  lemma {:induction false} NameAt(s: string, k: nat)
    requires k <= |s| && SCRIPT <= s[k..]
    ensures k + |SCRIPT| <= |s| && s[..k + |SCRIPT|] == s[..k] + SCRIPT
    ensures s[k..][|SCRIPT|..] == s[k + |SCRIPT|..]
  {
  }

  lemma {:induction false} OpensHere(s: string, k: nat)
    requires Find(s, SCRIPT) == Some(k)
    ensures Opens(s[k..]) <==> EndsName(s, k + |SCRIPT|)
  {
    FindIsFirst(s, SCRIPT);
  }

  lemma {:induction false} OtherTurn(s: string, k: nat, edit: string -> string)
    requires Find(s, SCRIPT) == Some(k) && !Opens(s[k..])
    ensures MapTags(s, edit) == s[..k + |SCRIPT|] + MapTags(s[k + |SCRIPT|..], edit)
  {
    NoneBefore(s, k, edit);
    NameAt(s, k);
    AnotherTag(s[k..], edit);
    Associate(s[..k], SCRIPT, MapTags(s[k + |SCRIPT|..], edit));
  }

  lemma {:induction false} UnendedTurn(s: string, k: nat, edit: string -> string)
    requires Find(s, SCRIPT) == Some(k) && Opens(s[k..]) && Find(s[k + |SCRIPT|..], ">").None?
    ensures MapTags(s, edit) == s
  {
    NoneBefore(s, k, edit);
    NameAt(s, k);
    UnendedTag(s[k..], edit);
    assert s[..k] + s[k..] == s;
  }

  lemma {:induction false} TagTurn(s: string, k: nat, n: nat, edit: string -> string)
    requires Find(s, SCRIPT) == Some(k) && Opens(s[k..]) && Find(s[k + |SCRIPT|..], ">") == Some(n)
    ensures var rest := s[k + |SCRIPT|..];
            MapTags(s, edit) == s[..k + |SCRIPT|] + (edit(rest[..n + 1]) + AfterTag(rest[n + 1..], edit))
  {
    NoneBefore(s, k, edit);
    NameAt(s, k);
    var rest := s[k + |SCRIPT|..];
    assert SplitTag(s[k..]) == Some((rest[..n + 1], rest[n + 1..]));
    Associate(s[..k], SCRIPT, edit(rest[..n + 1]) + AfterTag(rest[n + 1..], edit));
  }

  lemma {:induction false} AppendsBody(content: string, attr: string)
    ensures match Find(content, CLOSE)
            case None => AfterTag(content, Add(attr)) == content
            case Some(k) =>
              AfterTag(content, Add(attr)) == content[..k + |CLOSE|] + MapTags(content[k + |CLOSE|..], Add(attr))
  {
  }

  // The loop works on what is left of the document behind the cursor. Here the name of a tag was
  // just copied: what to append, what is left, and whether there may be more tags.
  method CopyScript(rest: string, tagEnd: nat, attr: string) returns (copied: string, left: string, more: bool)
    requires Find(rest, ">") == Some(tagEnd)
    ensures |left| < |rest|
    ensures copied + (if more then Nonced(left, attr) else left)
            == (attr + rest[..tagEnd + 1]) + AfterTag(rest[tagEnd + 1..], Add(attr))
  {
    copied := attr + rest[..tagEnd + 1];
    var content := rest[tagEnd + 1..];
    AppendsBody(content, attr);
    var close := Find(content, CLOSE);
    if close.None? {
      return copied, content, false;
    }
    var scriptEnd := close.value + |CLOSE|;
    Associate(copied, content[..scriptEnd], Nonced(content[scriptEnd..], attr));
    return copied + content[..scriptEnd], content[scriptEnd..], true;
  }

  // Here the name of a tag was found.
  method CopyTag(rest: string, start: nat, attr: string) returns (copied: string, left: string, more: bool)
    requires Find(rest, SCRIPT) == Some(start) && Opens(rest[start..])
    ensures more ==> |left| < |rest|
    ensures copied + (if more then Nonced(left, attr) else left) == Nonced(rest, attr)
  {
    var nameEnd := start + |SCRIPT|;
    var behind := rest[nameEnd..];
    var tagEnd := Find(behind, ">");
    if tagEnd.None? {
      UnendedTurn(rest, start, Add(attr));
      return "", rest, false;
    }
    var script;
    script, left, more := CopyScript(behind, tagEnd.value, attr);
    TagIsCopied(rest, start, tagEnd.value, attr, script, if more then Nonced(left, attr) else left);
    copied := rest[..nameEnd] + script;
  }

  lemma {:induction false} TagIsCopied(rest: string, start: nat, tagEnd: nat, attr: string, script: string,
                                       tail: string)
    requires Find(rest, SCRIPT) == Some(start) && Opens(rest[start..])
             && Find(rest[start + |SCRIPT|..], ">") == Some(tagEnd)
    requires var behind := rest[start + |SCRIPT|..];
             script + tail == (attr + behind[..tagEnd + 1]) + AfterTag(behind[tagEnd + 1..], Add(attr))
    ensures rest[..start + |SCRIPT|] + script + tail == Nonced(rest, attr)
  {
    TagTurn(rest, start, tagEnd, Add(attr));
    Associate(rest[..start + |SCRIPT|], script, tail);
  }

  method CopyUpToScript(rest: string, attr: string) returns (copied: string, left: string, more: bool)
    ensures more ==> |left| < |rest|
    ensures copied + (if more then Nonced(left, attr) else left) == Nonced(rest, attr)
  {
    var found := Find(rest, SCRIPT);
    if found.None? {
      NoScript(rest, Add(attr));
      return "", rest, false;
    }
    var start := found.value;
    var nameEnd := start + |SCRIPT|;
    OpensHere(rest, start);
    if !EndsName(rest, nameEnd) {
      OtherTurn(rest, start, Add(attr));
      return rest[..nameEnd], rest[nameEnd..], true;
    }
    copied, left, more := CopyTag(rest, start, attr);
  }

  // ----- Deleting the attributes again -----

  // A space or other blank first, and no tag ends in it.
  predicate IsAttribute(attr: string) {
    attr != [] && IsAsciiWhitespace(attr[0]) && '>' !in attr
  }

  lemma {:induction false} FindUnique(s: string, pattern: string, k: nat)
    requires k + |pattern| <= |s| && pattern <= s[k..]
    requires forall i :: 0 <= i < k ==> !(pattern <= s[i..])
    ensures Find(s, pattern) == Some(k)
  {
    assert s[0..] == s;
    if k > 0 {
      forall i | 0 <= i < k - 1 ensures !(pattern <= s[1..][i..]) {
        assert s[1..][i..] == s[i + 1..];
      }
      assert s[1..][k - 1..] == s[k..];
      FindUnique(s[1..], pattern, k - 1);
    }
  }

  // An insertion leaves the first characters alone, as the name of a tag stands before it.
  lemma {:induction false} KeepsBeginning(s: string, attr: string)
    ensures var n := if |s| < |SCRIPT| then |s| else |SCRIPT|;
            |Nonced(s, attr)| >= |s| && Nonced(s, attr)[..n] == s[..n]
    ensures |s| <= |SCRIPT| ==> Nonced(s, attr) == s
    decreases |s|
  {
    if s == [] {
    } else if Opens(s) && SplitTag(s).Some? {
      var (tag, content) := SplitTag(s).value;
      if SplitBody(content).Some? {
        KeepsBeginning(SplitBody(content).value.1, attr);
      }
      assert |AfterTag(content, Add(attr))| >= |content|;
      assert Nonced(s, attr) == SCRIPT + ((attr + tag) + AfterTag(content, Add(attr)));
    } else {
      KeepsBeginning(s[1..], attr);
      assert [s[0]] + s[1..] == s;
      if Opens(s) {
        UnendedTag(s, Add(attr));
      } else {
        assert Nonced(s, attr) == [s[0]] + Nonced(s[1..], attr);
        BeginsAlike(s[0], s[1..], Nonced(s[1..], attr));
      }
    }
  }

  lemma {:induction false} BeginsAlike(first: char, s: string, out: string)
    requires |out| >= |s| && var n := if |s| < |SCRIPT| then |s| else |SCRIPT|; out[..n] == s[..n]
    ensures var n := if |s| + 1 < |SCRIPT| then |s| + 1 else |SCRIPT|; ([first] + out)[..n] == ([first] + s)[..n]
  {
    var m := if |s| < |SCRIPT| then |s| else |SCRIPT|;
    var n := if |s| + 1 < |SCRIPT| then |s| + 1 else |SCRIPT|;
    forall k | 0 <= k < n ensures ([first] + out)[k] == ([first] + s)[k] {
      if k > 0 {
        assert out[..m][k - 1] == s[..m][k - 1];
      }
    }
  }

  // No tag opens where none did.
  lemma {:induction false} OpensNothingNew(s: string, attr: string)
    requires s != [] && !Opens(s)
    ensures !Opens(Nonced(s, attr)) && Nonced(s, attr) == [s[0]] + Nonced(s[1..], attr)
  {
    KeepsBeginning(s, attr);
    KeepsBeginning(s[1..], attr);
    var out := Nonced(s, attr);
    if |s| > |SCRIPT| {
      assert out[|SCRIPT|] == Nonced(s[1..], attr)[..|SCRIPT|][|SCRIPT| - 1] == s[1..][..|SCRIPT|][|SCRIPT| - 1];
      assert out[..|SCRIPT|] == s[..|SCRIPT|];
    }
  }

  // The interior of a tag has its '>' at the end only.
  lemma {:induction false} InteriorEnds(s: string)
    requires Opens(s) && SplitTag(s).Some?
    ensures var (tag, content) := SplitTag(s).value;
            s == SCRIPT + (tag + content) && |tag| > 0 && tag[|tag| - 1] == '>' && '>' !in tag[..|tag| - 1]
  {
    var rest := s[|SCRIPT|..];
    FindIsFirst(rest, ">");
    var k := Find(rest, ">").value;
    assert rest[k] == rest[k..][0] == '>';
    forall i | 0 <= i < k ensures rest[i] != '>' {
      assert !(">" <= rest[i..]);
    }
  }

  lemma {:induction false} SplitsWithAttribute(attr: string, tag: string, rest: string)
    requires IsAttribute(attr) && |tag| > 0 && tag[|tag| - 1] == '>' && '>' !in tag[..|tag| - 1]
    ensures var out := SCRIPT + ((attr + tag) + rest);
            Opens(out) && SplitTag(out) == Some((attr + tag, rest))
  {
    var inner := (attr + tag) + rest;
    var out := SCRIPT + inner;
    assert out[|SCRIPT|] == attr[0];
    assert out[|SCRIPT|..] == inner;
    var k := |attr| + |tag| - 1;
    forall i | 0 <= i < k ensures !(">" <= inner[i..]) {
      assert inner[i..][0] == inner[i];
      if i < |attr| {
        assert inner[i] == attr[i];
      } else {
        assert inner[i] == tag[..|tag| - 1][i - |attr|];
      }
    }
    assert inner[k..][0] == tag[|tag| - 1];
    FindUnique(inner, ">", k);
  }

  lemma {:induction false} SameAhead(s: string, after: string, i: nat, n: nat)
    requires i + n <= |s|
    ensures (s + after)[i..][..n] == s[i..][..n]
  {
  }

  // The body ends where it did, whatever comes after it.
  lemma {:induction false} BodyEndsThere(content: string, after: string)
    requires SplitBody(content).Some?
    ensures var (body, rest) := SplitBody(content).value;
            content == body + rest && SplitBody(body + after) == Some((body, after))
  {
    FindIsFirst(content, CLOSE);
    var k := Find(content, CLOSE).value;
    var body, rest := content[..k + |CLOSE|], content[k + |CLOSE|..];
    assert content == body + rest;
    forall i | 0 <= i < k ensures !(CLOSE <= (body + after)[i..]) {
      SameAhead(body, after, i, |CLOSE|);
      SameAhead(body, rest, i, |CLOSE|);
    }
    SameAhead(body, after, k, |CLOSE|);
    SameAhead(body, rest, k, |CLOSE|);
    FindUnique(body + after, CLOSE, k);
    assert (body + after)[..|body|] == body && (body + after)[|body|..] == after;
  }

  lemma {:induction false} UnendedHasNoTags(s: string)
    requires '>' !in s[if |s| < |SCRIPT| then |s| else |SCRIPT|..]
    ensures Tags(s) == []
  {
    if s != [] {
      if Opens(s) {
        FindIsFirst(s[|SCRIPT|..], ">");
      }
      UnendedHasNoTags(s[1..]);
    }
  }

  lemma {:induction false} UnendedInterior(s: string)
    requires Opens(s) && SplitTag(s).None?
    ensures '>' !in s[|SCRIPT|..]
  {
    var rest := s[|SCRIPT|..];
    FindIsFirst(rest, ">");
    forall i | 0 <= i < |rest| ensures rest[i] != '>' {
      assert !(">" <= rest[i..]);
    }
  }

  lemma {:induction false} DropsWhatWasAdded(attr: string, tag: string)
    ensures Drop(|attr|)(Add(attr)(tag)) == tag
  {
  }

  // Deleting the inserted attributes gives back the document, character for character.
  lemma {:induction false} StripsToOriginal(s: string, attr: string)
    requires IsAttribute(attr)
    ensures MapTags(Nonced(s, attr), Drop(|attr|)) == s
    decreases |s|
  {
    var out := Nonced(s, attr);
    if s == [] {
    } else if !Opens(s) {
      OpensNothingNew(s, attr);
      StripsToOriginal(s[1..], attr);
      assert out[1..] == Nonced(s[1..], attr);
    } else if SplitTag(s).None? {
      UnendedTag(s, Add(attr));
      UnendedTag(s, Drop(|attr|));
    } else {
      var (tag, content) := SplitTag(s).value;
      var after := AfterTag(content, Add(attr));
      InteriorEnds(s);
      SplitsWithAttribute(attr, tag, after);
      DropsWhatWasAdded(attr, tag);
      BodyStrips(content, attr);
    }
  }

  lemma {:induction false} BodyStrips(content: string, attr: string)
    requires IsAttribute(attr)
    ensures AfterTag(AfterTag(content, Add(attr)), Drop(|attr|)) == content
    decreases |content|, 1
  {
    if SplitBody(content).Some? {
      var (body, rest) := SplitBody(content).value;
      StripsToOriginal(rest, attr);
      BodyEndsThere(content, Nonced(rest, attr));
    }
  }

  // Read again, the result has the same script tags, and each one's first attribute is the nonce.
  lemma {:induction false} EveryTagGetsOne(s: string, attr: string)
    requires IsAttribute(attr)
    ensures Tags(Nonced(s, attr)) == Each(Tags(s), Add(attr))
    decreases |s|
  {
    var out := Nonced(s, attr);
    if s == [] {
    } else if !Opens(s) {
      OpensNothingNew(s, attr);
      EveryTagGetsOne(s[1..], attr);
      assert out[1..] == Nonced(s[1..], attr);
    } else if SplitTag(s).None? {
      UnendedTag(s, Add(attr));
      UnendedInterior(s);
      UnendedHasNoTags(s);
    } else {
      var (tag, content) := SplitTag(s).value;
      InteriorEnds(s);
      SplitsWithAttribute(attr, tag, AfterTag(content, Add(attr)));
      if SplitBody(content).Some? {
        var (body, rest) := SplitBody(content).value;
        EveryTagGetsOne(rest, attr);
        BodyEndsThere(content, Nonced(rest, attr));
      }
      assert Each(Tags(s), Add(attr))[0] == attr + tag;
    }
  }

  // ----- Where the script tags are -----

  // The name of a script tag stands at p, and a blank or '>' behind it.
  predicate OpensAt(s: string, p: nat) {
    && p + 7 < |s| && s[p..p + 7] == "<script"
    && (s[p + 7] == '>' || s[p + 7] == ' ' || s[p + 7] == '\t' || s[p + 7] == '\n' || s[p + 7] == '\U{000C}'
        || s[p + 7] == '\r')
  }

  // The tag at p ends before `end`, with the first '>' behind its name.
  ghost predicate EndsTag(s: string, p: nat, end: nat) {
    p + 7 < end <= |s| && s[end - 1] == '>' && '>' !in s[p + 7..end - 1]
  }

  predicate ClosesAt(s: string, p: nat) {
    p + 9 <= |s| && s[p..p + 9] == "</script>"
  }

  // The body at p ends before `end`, with the first closing tag.
  ghost predicate EndsBody(s: string, p: nat, end: nat) {
    p + 9 <= end && ClosesAt(s, end - 9) && forall i: nat :: p <= i < end - 9 ==> !ClosesAt(s, i)
  }

  ghost predicate InOrder(s: string, start: nat, at: seq<nat>) {
    && start <= |s|
    && (forall i :: 0 <= i < |at| ==> start <= at[i] && at[i] + 7 <= |s|)
    && (forall i, j :: 0 <= i < j < |at| ==> at[i] + 7 <= at[j])
  }

  // The script tags from `start` on stand at these places: each is the first to open behind the body of
  // the one before, and it ends.
  ghost predicate TagsAt(s: string, start: nat, at: seq<nat>)
    decreases |at|, 0
  {
    && InOrder(s, start, at)
    && if at == [] then forall p: nat :: start <= p && OpensAt(s, p) ==> '>' !in s[p + 7..]
       else
         && OpensAt(s, at[0]) && (forall p: nat :: start <= p < at[0] ==> !OpensAt(s, p))
         && exists end: nat :: EndsTag(s, at[0], end) && TagsBehind(s, end, at[1..])
  }

  // A body that is never closed is the last.
  ghost predicate TagsBehind(s: string, content: nat, at: seq<nat>)
    decreases |at|, 1
  {
    || (at == [] && forall i: nat :: content <= i ==> !ClosesAt(s, i))
    || exists end: nat :: EndsBody(s, content, end) && TagsAt(s, end, at)
  }

  // The document from `start` on, with the text put behind the name of each of these tags.
  ghost function Inserted(s: string, start: nat, at: seq<nat>, attr: string): string
    requires InOrder(s, start, at)
    decreases |at|
  {
    if at == [] then s[start..] else s[start..at[0] + 7] + attr + Inserted(s, at[0] + 7, at[1..], attr)
  }

  lemma {:induction false} OpensThere(s: string, p: nat)
    requires p <= |s|
    ensures OpensAt(s, p) <==> Opens(s[p..])
  {
    if p + 7 <= |s| {
      assert s[p..p + 7] == s[p..][..7];
    }
  }

  lemma {:induction false} ClosesThere(s: string, p: nat, i: nat)
    requires p + i <= |s|
    ensures ClosesAt(s, p + i) <==> CLOSE <= s[p..][i..]
  {
    assert s[p..][i..] == s[p + i..];
    if p + i + 9 <= |s| {
      assert s[p + i..p + i + 9] == s[p + i..][..9];
    }
  }

  lemma {:induction false} EndsThere(s: string, p: nat)
    requires p <= |s|
    ensures ">" <= s[p..] <==> p < |s| && s[p] == '>'
  {
    if p < |s| {
      assert s[p..][0] == s[p];
    }
  }

  lemma {:induction false} FindsEnd(s: string, k: nat)
    ensures Find(s, ">") == Some(k) <==> k < |s| && s[k] == '>' && '>' !in s[..k]
  {
    FindIsFirst(s, ">");
    forall i | 0 <= i <= |s| ensures ">" <= s[i..] <==> i < |s| && s[i] == '>' {
      EndsThere(s, i);
    }
    if k < |s| && s[k] == '>' && '>' !in s[..k] {
      forall i | 0 <= i < k ensures !(">" <= s[i..]) {
        assert s[i] == s[..k][i];
      }
      FindUnique(s, ">", k);
    }
  }

  // Both say where a tag ends.
  lemma {:induction false} FindsTagEnd(s: string, p: nat, end: nat)
    requires p + 7 <= |s|
    ensures EndsTag(s, p, end) <==> p + 7 < end && Find(s[p + 7..], ">") == Some(end - p - 8)
  {
    if p + 7 < end <= |s| {
      FindsEnd(s[p + 7..], end - p - 8);
      assert s[p + 7..][..end - p - 8] == s[p + 7..end - 1];
    }
  }

  lemma {:induction false} FindsNoEnd(s: string, p: nat)
    requires p <= |s|
    ensures Find(s[p..], ">").None? <==> '>' !in s[p..]
  {
    var rest := s[p..];
    FindIsFirst(rest, ">");
    forall i | 0 <= i < |rest| ensures ">" <= rest[i..] <==> rest[i] == '>' {
      EndsThere(rest, i);
    }
  }

  lemma {:induction false} SplitsThere(s: string, p: nat, end: nat)
    requires OpensAt(s, p) && EndsTag(s, p, end)
    ensures Opens(s[p..]) && SplitTag(s[p..]) == Some((s[p + 7..end], s[end..]))
  {
    OpensThere(s, p);
    FindsTagEnd(s, p, end);
    assert s[p..][7..] == s[p + 7..];
    assert s[p + 7..][..end - p - 7] == s[p + 7..end];
    assert s[p + 7..][end - p - 7..] == s[end..];
  }

  lemma {:induction false} FindsClose(s: string, p: nat, end: nat)
    requires p <= |s|
    ensures EndsBody(s, p, end) <==> p + 9 <= end && Find(s[p..], CLOSE) == Some(end - p - 9)
    ensures Find(s[p..], CLOSE).None? <==> forall i: nat :: p <= i ==> !ClosesAt(s, i)
  {
    var rest := s[p..];
    FindIsFirst(rest, CLOSE);
    forall i: nat | p + i <= |s| ensures ClosesAt(s, p + i) <==> CLOSE <= rest[i..] {
      ClosesThere(s, p, i);
    }
    forall i: nat | p <= i <= |s| ensures ClosesAt(s, i) <==> CLOSE <= rest[i - p..] {
      ClosesThere(s, p, i - p);
    }
    if EndsBody(s, p, end) {
      FindUnique(rest, CLOSE, end - p - 9);
    }
  }

  lemma {:induction false} BodySplitsThere(s: string, p: nat, end: nat)
    requires p <= |s| && EndsBody(s, p, end)
    ensures SplitBody(s[p..]) == Some((s[p..end], s[end..]))
  {
    FindsClose(s, p, end);
    assert s[p..][..end - p] == s[p..end] && s[p..][end - p..] == s[end..];
  }

  lemma {:induction false} InsertedFromEarlier(s: string, a: nat, b: nat, at: seq<nat>, attr: string)
    requires a <= b && InOrder(s, b, at)
    ensures InOrder(s, a, at) && Inserted(s, a, at, attr) == s[a..b] + Inserted(s, b, at, attr)
  {
    if at == [] {
      assert s[a..] == s[a..b] + s[b..];
    } else {
      assert s[a..at[0] + 7] == s[a..b] + s[b..at[0] + 7];
      Associate(s[a..b], s[b..at[0] + 7], attr);
      Associate(s[a..b], s[b..at[0] + 7] + attr, Inserted(s, at[0] + 7, at[1..], attr));
    }
  }

  lemma {:induction false} InsertsBehind(s: string, content: nat, at: seq<nat>, attr: string)
    requires content <= |s| && TagsBehind(s, content, at)
    ensures InOrder(s, content, at) && AfterTag(s[content..], Add(attr)) == Inserted(s, content, at, attr)
    decreases |s| - content
  {
    if end: nat :| EndsBody(s, content, end) && TagsAt(s, end, at) {
      BodySplitsThere(s, content, end);
      InsertsExactly(s, end, at, attr);
      InsertedFromEarlier(s, content, end, at, attr);
    } else {
      FindsClose(s, content, 0);
    }
  }

  lemma {:induction false} InsertsAtTag(s: string, at: seq<nat>, end: nat, attr: string)
    requires at != [] && InOrder(s, at[0], at) && OpensAt(s, at[0]) && EndsTag(s, at[0], end)
    requires InOrder(s, end, at[1..]) && AfterTag(s[end..], Add(attr)) == Inserted(s, end, at[1..], attr)
    ensures Nonced(s[at[0]..], attr) == Inserted(s, at[0], at, attr)
  {
    var start, after := at[0], Inserted(s, end, at[1..], attr);
    var tag := s[start + 7..end];
    SplitsThere(s, start, end);
    assert Nonced(s[start..], attr) == "<script" + ((attr + tag) + after);
    InsertedFromEarlier(s, start + 7, end, at[1..], attr);
    assert Inserted(s, start, at, attr) == "<script" + attr + (tag + after);
    Associate(attr, tag, after);
    Associate("<script", attr, tag + after);
  }

  lemma {:induction false} TagsFromNext(s: string, start: nat, at: seq<nat>)
    requires TagsAt(s, start, at) && start < |s| && !OpensAt(s, start)
    ensures TagsAt(s, start + 1, at)
  {
  }

  lemma {:induction false} InsertsPlain(s: string, start: nat, at: seq<nat>, attr: string)
    requires start < |s| && !OpensAt(s, start) && InOrder(s, start + 1, at)
    requires Nonced(s[start + 1..], attr) == Inserted(s, start + 1, at, attr)
    ensures InOrder(s, start, at) && Nonced(s[start..], attr) == Inserted(s, start, at, attr)
  {
    OpensThere(s, start);
    assert s[start..][1..] == s[start + 1..];
    InsertedFromEarlier(s, start, start + 1, at, attr);
  }

  lemma {:induction false} InsertsNothing(s: string, start: nat, attr: string)
    requires OpensAt(s, start) && '>' !in s[start + 7..]
    ensures Nonced(s[start..], attr) == s[start..]
  {
    OpensThere(s, start);
    assert s[start..][7..] == s[start + 7..];
    FindsNoEnd(s, start + 7);
    UnendedTag(s[start..], Add(attr));
  }

  lemma {:induction false} FirstTagIsHere(s: string, start: nat, at: seq<nat>) returns (end: nat)
    requires TagsAt(s, start, at) && OpensAt(s, start) && at != []
    ensures at[0] == start && EndsTag(s, start, end) && TagsBehind(s, end, at[1..])
  {
    end :| EndsTag(s, at[0], end) && TagsBehind(s, end, at[1..]);
  }

  // The result is the document with the text put behind the name of each script tag, and nowhere else.
  lemma {:induction false} InsertsExactly(s: string, start: nat, at: seq<nat>, attr: string)
    requires TagsAt(s, start, at)
    ensures Nonced(s[start..], attr) == Inserted(s, start, at, attr)
    decreases |s| - start
  {
    if start == |s| {
      assert at == [];
    } else if !OpensAt(s, start) {
      TagsFromNext(s, start, at);
      InsertsExactly(s, start + 1, at, attr);
      InsertsPlain(s, start, at, attr);
    } else if at == [] {
      InsertsNothing(s, start, attr);
    } else {
      var end := FirstTagIsHere(s, start, at);
      InsertsBehind(s, end, at[1..], attr);
      InsertsAtTag(s, at, end, attr);
    }
  }

  lemma {:induction false} CountsTagsBehind(s: string, content: nat, at: seq<nat>)
    requires content <= |s| && TagsBehind(s, content, at)
    ensures var split := SplitBody(s[content..]);
            |at| == if split.Some? then |Tags(split.value.1)| else 0
    decreases |s| - content
  {
    if end: nat :| EndsBody(s, content, end) && TagsAt(s, end, at) {
      BodySplitsThere(s, content, end);
      CountsTags(s, end, at);
    } else {
      FindsClose(s, content, 0);
    }
  }

  // The scanner finds one tag at each of these places.
  lemma {:induction false} CountsTags(s: string, start: nat, at: seq<nat>)
    requires TagsAt(s, start, at)
    ensures |Tags(s[start..])| == |at|
    decreases |s| - start
  {
    OpensThere(s, start);
    if start == |s| {
      assert at == [];
    } else if !OpensAt(s, start) {
      TagsFromNext(s, start, at);
      assert s[start..][1..] == s[start + 1..];
      CountsTags(s, start + 1, at);
    } else if at == [] {
      assert s[start..][7..] == s[start + 7..];
      UnendedHasNoTags(s[start..]);
    } else {
      var end := FirstTagIsHere(s, start, at);
      SplitsThere(s, start, end);
      CountsTagsBehind(s, end, at[1..]);
    }
  }

  lemma {:induction false} TagsStandSomewhere(s: string, start: nat) returns (at: seq<nat>)
    requires start <= |s|
    ensures TagsAt(s, start, at)
    decreases |s| - start
  {
    at := [];
    if start < |s| {
      if !OpensAt(s, start) {
        at := TagsStandSomewhere(s, start + 1);
      } else if '>' in s[start + 7..] {
        FindsNoEnd(s, start + 7);
        var end := start + 8 + Find(s[start + 7..], ">").value;
        FindsTagEnd(s, start, end);
        at := TagsStandBehind(s, end);
        TagStartsList(s, start, end, at);
        at := [start] + at;
      } else {
        NoLaterEnd(s, start);
      }
    }
  }

  lemma {:induction false} NoLaterEnd(s: string, start: nat)
    requires start + 7 <= |s| && '>' !in s[start + 7..]
    ensures TagsAt(s, start, [])
  {
    forall p: nat | start <= p && OpensAt(s, p) ensures '>' !in s[p + 7..] {
      assert s[p + 7..] == s[start + 7..][p - start..];
    }
  }

  lemma {:induction false} TagStartsList(s: string, start: nat, end: nat, at: seq<nat>)
    requires OpensAt(s, start) && EndsTag(s, start, end) && InOrder(s, end, at) && TagsBehind(s, end, at)
    ensures TagsAt(s, start, [start] + at)
  {
    var all := [start] + at;
    assert all[1..] == at;
    forall i, j | 0 <= i < j < |all| ensures all[i] + 7 <= all[j] {
      if i > 0 {
        assert at[i - 1] + 7 <= at[j - 1];
      }
    }
  }

  lemma {:induction false} TagsStandBehind(s: string, content: nat) returns (at: seq<nat>)
    requires content <= |s|
    ensures InOrder(s, content, at) && TagsBehind(s, content, at)
    decreases |s| - content
  {
    at := [];
    FindsClose(s, content, 0);
    var found := Find(s[content..], CLOSE);
    if found.Some? {
      var end := content + found.value + 9;
      FindsClose(s, content, end);
      at := TagsStandSomewhere(s, end);
    }
  }

  function Attribute(nonce: string): (attr: string)
    ensures '>' !in nonce ==> IsAttribute(attr)
  {
    " nonce=\"" + nonce + "\""
  }

  method NonceHtmlScripts(html: string, nonce: string) returns (output: string)
    ensures output == Nonced(html, Attribute(nonce))
    ensures exists at :: TagsAt(html, 0, at)
    ensures forall at :: TagsAt(html, 0, at) ==> output == Inserted(html, 0, at, " nonce=\"" + nonce + "\"")
    ensures '>' !in nonce ==>
              && MapTags(output, Drop(|Attribute(nonce)|)) == html
              && Tags(output) == Each(Tags(html), Add(Attribute(nonce)))
  {
    var attr := Attribute(nonce);
    output := "";
    var rest, more := html, true;
    while more
      invariant output + (if more then Nonced(rest, attr) else rest) == Nonced(html, attr)
      decreases more, |rest|
    {
      var copied;
      copied, rest, more := CopyUpToScript(rest, attr);
      Associate(output, copied, if more then Nonced(rest, attr) else rest);
      output := output + copied;
    }
    output := output + rest;
    var at := TagsStandSomewhere(html, 0);
    forall at | TagsAt(html, 0, at) ensures output == Inserted(html, 0, at, attr) {
      InsertsExactly(html, 0, at, attr);
      assert html[0..] == html;
    }
    if '>' !in nonce {
      StripsToOriginal(html, attr);
      EveryTagGetsOne(html, attr);
    }
  }
}
