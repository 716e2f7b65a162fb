/**
 * Removal of the Markdown code fence a language model tends to wrap its JSON
 * in. Both endpoints run the same steps on the trimmed reply: when the text
 * starts with "```json" they remove the anchored pattern /^```json\n/ and then
 * /\n```$/; otherwise, when it starts with "```", they remove /^```\n/ and then
 * /\n```$/. Without the `m` flag `^` and `$` anchor at the very start and end
 * of the text, and each `replace` rewrites at most one match.
 */
module Fences {
  import opened Text

  const Fence := "```"
  const JsonTag := "```json"
  const JsonOpening := "```json\n"
  const BareOpening := "```\n"
  const Closing := "\n```"

  /** `s.replace(/^prefix/, '')`. */
  function DropLeading(s: string, prefix: string): (r: string)
    ensures |r| <= |s| && r == s[|s| - |r|..]
    ensures StartsWith(s, prefix) ==> s == prefix + r
    ensures !StartsWith(s, prefix) ==> r == s
  {
    if StartsWith(s, prefix) then s[|prefix|..] else s
  }

  /** `s.replace(/suffix$/, '')`. */
  function DropTrailing(s: string, suffix: string): (r: string)
    ensures |r| <= |s| && r == s[..|r|]
    ensures EndsWith(s, suffix) ==> s == r + suffix
    ensures !EndsWith(s, suffix) ==> r == s
  {
    if EndsWith(s, suffix) then s[..|s| - |suffix|] else s
  }

  /** The fence-stripping step applied to the already trimmed reply `t`. */
  function StripFences(t: string): (r: string)
    ensures !StartsWith(t, Fence) ==> r == t
    ensures IsInfix(r, t)
  {
    if StartsWith(t, JsonTag) then
      var u := DropLeading(t, JsonOpening);
      var r := DropTrailing(u, Closing);
      InfixOfSlices(t, u, r);
      r
    else if StartsWith(t, Fence) then
      var u := DropLeading(t, BareOpening);
      var r := DropTrailing(u, Closing);
      InfixOfSlices(t, u, r);
      r
    else
      t
  }

  /** A reply fenced as ```json ... ``` gives exactly its interior. */
  lemma StripJsonFence(body: string)
    ensures StripFences(JsonOpening + body + Closing) == body
  {
    var t := JsonOpening + body + Closing;
    assert t[..|JsonTag|] == JsonTag;
    assert StartsWith(t, JsonOpening);
    assert t[|JsonOpening|..] == body + Closing;
    assert EndsWith(body + Closing, Closing);
  }

  /** A reply fenced as ``` ... ``` gives exactly its interior. */
  lemma StripBareFence(body: string)
    ensures StripFences(BareOpening + body + Closing) == body
  {
    var t := BareOpening + body + Closing;
    assert t[3] == '\n';
    assert !StartsWith(t, JsonTag);
    assert t[..|Fence|] == Fence;
    assert StartsWith(t, BareOpening);
    assert t[|BareOpening|..] == body + Closing;
    assert EndsWith(body + Closing, Closing);
  }

  /** A fence tagged with another language, such as ```js, keeps its opening
      line: the bare pattern needs the line break right after the backticks,
      so only the closing fence goes. */
  lemma StripOtherLanguageTag(body: string)
    ensures StripFences("```js\n" + body + Closing) == "```js\n" + body
  {
    var t := "```js\n" + body + Closing;
    assert t[5] == '\n';
    assert !StartsWith(t, JsonTag);
    assert t[..|Fence|] == Fence;
    assert t[3] == 'j';
    assert !StartsWith(t, BareOpening);
    assert t[|t| - |Closing|..] == Closing;
    assert t[..|t| - |Closing|] == "```js\n" + body;
  }

  /** The json tag followed by anything but a line break keeps the opening:
      only the closing fence goes. */
  lemma StripJsonTagWithoutLineBreak(c: char, rest: string)
    requires c != '\n'
    ensures StripFences(JsonTag + [c] + rest + Closing) == JsonTag + [c] + rest
  {
    var t := JsonTag + [c] + rest + Closing;
    assert t[..|JsonTag|] == JsonTag;
    assert t[7] == c;
    assert !StartsWith(t, JsonOpening);
    assert t[|t| - |Closing|..] == Closing;
    assert t[..|t| - |Closing|] == JsonTag + [c] + rest;
  }

  /** For any body, a pass over a doubly fenced reply removes only the outer fence. */
  lemma StripOuterLayer(body: string)
    ensures StripFences(JsonOpening + JsonOpening + body + Closing + Closing) == JsonOpening + body + Closing
  {
    var inner := JsonOpening + body + Closing;
    StripJsonFence(inner);
    assert JsonOpening + inner + Closing == JsonOpening + JsonOpening + body + Closing + Closing;
  }

  /** Stripping removes one layer only: `{}` fenced twice is not fully
      unwrapped by one pass, so a second pass changes it again. */
  lemma StripRemovesOneLayer()
    ensures var once := StripFences(JsonOpening + JsonOpening + "{}" + Closing + Closing);
            once == JsonOpening + "{}" + Closing && StripFences(once) == "{}" && StripFences(once) != once
  {
    StripOuterLayer("{}");
    StripJsonFence("{}");
  }
}
