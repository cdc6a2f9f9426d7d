/** The bounded translation history (`llm_history`) shared by every
    translation request: a sliding window over the most recent entries. */
module Conversation {

  datatype Role = User | Assistant

  /** One content block of a message; only text blocks occur. */
  datatype Block = Text(text: string)

  /** One message of the conversation, `{role, content}`. */
  datatype Entry = Entry(role: Role, content: seq<Block>)

  /** The history keeps at most this many entries. */
  const Cap: nat := 128

  /** The text of a user prompt, `${text} --> ${language}`. Given the length
      of the text, the text and the language are the parts before and after
      `" --> "`; without it the split is ambiguous when the text itself
      contains `" --> "`. */
  function PromptText(text: string, language: string): (s: string)
    ensures |s| == |text| + 5 + |language|
    ensures s[..|text|] == text && s[|text| + 5..] == language
    ensures s[|text|..|text| + 5] == " --> "
  {
    text + " --> " + language
  }

  /** The user message that a translation request adds to the history: a
      user entry with one text block. */
  function UserPrompt(text: string, language: string): (e: Entry)
    ensures e.role == User && |e.content| == 1
    ensures e.content[0].text == PromptText(text, language)
  {
    Entry(User, [Text(PromptText(text, language))])
  }

  /** `s.slice(-128)` applied only when `s` is longer than the cap: the longest
      suffix of `s` that fits. */
  function Window<T>(s: seq<T>): (r: seq<T>)
    ensures |r| == if |s| <= Cap then |s| else Cap
    ensures r == s[|s| - |r|..]
  {
    if |s| > Cap then s[|s| - Cap..] else s
  }

  /** The history after a successful round trip: the prompt and the reply are
      appended in that order, then the oldest entries are evicted down to the cap. */
  function Append2(h: seq<Entry>, prompt: Entry, reply: Entry): (r: seq<Entry>)
    ensures |r| == if |h| + 2 <= Cap then |h| + 2 else Cap
    ensures r[|r| - 2] == prompt && r[|r| - 1] == reply
    ensures r[..|r| - 2] == h[|h| - (|r| - 2)..]
  {
    var s := h + [prompt, reply];
    var r := Window(s);
    assert r[..|r| - 2] == s[|s| - |r|..|s| - 2];
    assert s[..|h|] == h;
    r
  }

  /** `Append2` is the window over the history with the pair appended. */
  lemma {:induction false} Append2IsWindow(h: seq<Entry>, prompt: Entry, reply: Entry)
    ensures Append2(h, prompt, reply) == Window(h + [prompt, reply])
  {
  }

  /** While the history has room for the new pair, nothing is evicted: the old
      history is a prefix of the new one. */
  lemma {:induction false} Append2Grows(h: seq<Entry>, prompt: Entry, reply: Entry)
    requires |h| + 2 <= Cap
    ensures Append2(h, prompt, reply) == h + [prompt, reply]
  {
  }

  /** Once the cap is reached, exactly the oldest entries are evicted. */
  lemma {:induction false} Append2Evicts(h: seq<Entry>, prompt: Entry, reply: Entry)
    requires |h| + 2 > Cap
    ensures Append2(h, prompt, reply) == (h + [prompt, reply])[|h| + 2 - Cap..]
  {
  }

  /** User and assistant entries alternate, starting with a user entry, and
      every prompt has its reply. */
  ghost predicate Alternating(h: seq<Entry>)
  {
    |h| % 2 == 0 &&
    forall i :: 0 <= i < |h| ==> h[i].role == (if i % 2 == 0 then User else Assistant)
  }

  /** Appending a (user, assistant) pair keeps the roles alternating: the cap
      is even, so eviction always removes whole pairs. */
  lemma {:induction false} AlternationPreserved(h: seq<Entry>, prompt: Entry, reply: Entry)
    requires Alternating(h)
    requires prompt.role == User && reply.role == Assistant
    ensures Alternating(Append2(h, prompt, reply))
  {
    var s := h + [prompt, reply];
    AlternatingPair(h, prompt, reply);
    AlternatingSuffix(s, |s| - |Window(s)|);
  }

  lemma {:induction false} AlternatingPair(h: seq<Entry>, prompt: Entry, reply: Entry)
    requires Alternating(h)
    requires prompt.role == User && reply.role == Assistant
    ensures Alternating(h + [prompt, reply])
  {
    var s := h + [prompt, reply];
    forall i | 0 <= i < |s|
      ensures s[i].role == (if i % 2 == 0 then User else Assistant)
    {
      if i < |h| {
        assert s[i] == h[i];
      }
    }
  }

  /** Dropping an even number of leading entries keeps the roles alternating. */
  lemma {:induction false} AlternatingSuffix(s: seq<Entry>, d: nat)
    requires Alternating(s) && d <= |s| && d % 2 == 0
    ensures Alternating(s[d..])
  {
    var r := s[d..];
    forall i | 0 <= i < |r|
      ensures r[i].role == (if i % 2 == 0 then User else Assistant)
    {
      assert r[i] == s[d + i];
      assert (d + i) % 2 == i % 2;
    }
  }

  /** One completed translation: the prompt and the model's reply. */
  datatype Exchange = Exchange(prompt: Entry, reply: Entry)

  /** The entries that a series of exchanges contributes, oldest first. */
  function Flatten(xs: seq<Exchange>): seq<Entry>
  {
    if xs == [] then [] else [xs[0].prompt, xs[0].reply] + Flatten(xs[1..])
  }

  /** The history after a series of successful translations, one after the other. */
  function Replay(h: seq<Entry>, xs: seq<Exchange>): seq<Entry>
    decreases |xs|
  {
    if xs == [] then h else Replay(Append2(h, xs[0].prompt, xs[0].reply), xs[1..])
  }

  lemma {:induction false} FlattenLength(xs: seq<Exchange>)
    ensures |Flatten(xs)| == 2 * |xs|
  {
    if xs != [] {
      FlattenLength(xs[1..]);
    }
  }

  /** Truncating early changes nothing: cutting to the cap and then appending
      and cutting again keeps the same suffix as a single cut at the end. */
  lemma {:induction false} WindowAbsorbs<T>(s: seq<T>, t: seq<T>)
    ensures Window(Window(s) + t) == Window(s + t)
  {
    var w := Window(s);
    if |s| > Cap {
      var a := Window(w + t);
      var b := Window(s + t);
      assert |a| == |b|;
      forall i | 0 <= i < |a|
        ensures a[i] == b[i]
      {
        var k := |w + t| - |a| + i;
        var m := |s + t| - |b| + i;
        if k < |w| {
          assert (w + t)[k] == w[k] == s[|s| - Cap + k];
          assert m == |s| - Cap + k;
        } else {
          assert (w + t)[k] == t[k - |w|];
          assert m - |s| == k - |w|;
        }
      }
    }
  }

  /** The history after any series of successful translations is the most
      recent `Cap` entries of everything ever appended. */
  lemma {:induction false} ReplayIsWindow(h: seq<Entry>, xs: seq<Exchange>)
    requires |h| <= Cap
    ensures Replay(h, xs) == Window(h + Flatten(xs))
    decreases |xs|
  {
    if xs == [] {
      assert h + Flatten(xs) == h;
    } else {
      var x, rest := xs[0], xs[1..];
      var pair := h + [x.prompt, x.reply];
      ReplayStep(h, xs);
      ReplayIsWindow(Append2(h, x.prompt, x.reply), rest);
      WindowAbsorbs(pair, Flatten(rest));
    }
  }

  /** One step of a replay: the first exchange is appended, and the entries
      still to come are the rest of the flattened series. */
  lemma {:induction false} ReplayStep(h: seq<Entry>, xs: seq<Exchange>)
    requires xs != []
    ensures Replay(h, xs) == Replay(Append2(h, xs[0].prompt, xs[0].reply), xs[1..])
    ensures Append2(h, xs[0].prompt, xs[0].reply) == Window(h + [xs[0].prompt, xs[0].reply])
    ensures h + Flatten(xs) == (h + [xs[0].prompt, xs[0].reply]) + Flatten(xs[1..])
  {
    assert Flatten(xs) == [xs[0].prompt, xs[0].reply] + Flatten(xs[1..]);
  }

  /** After at least 64 translations the history is full and holds exactly the
      128 most recently appended entries, in their original order. */
  lemma {:induction false} ReplayKeepsMostRecent(h: seq<Entry>, xs: seq<Exchange>)
    requires |h| <= Cap && 2 * |xs| >= Cap
    ensures |Flatten(xs)| >= Cap
    ensures |Replay(h, xs)| == Cap
    ensures Replay(h, xs) == Flatten(xs)[|Flatten(xs)| - Cap..]
  {
    FlattenLength(xs);
    ReplayIsWindow(h, xs);
    SuffixOfAppend(h, Flatten(xs), Replay(h, xs));
  }

  /** A window over `h + f` with `f` at least `Cap` long holds only entries of `f`. */
  lemma {:induction false} SuffixOfAppend<T>(h: seq<T>, f: seq<T>, r: seq<T>)
    requires |f| >= Cap && r == Window(h + f)
    ensures |r| == Cap && r == f[|f| - Cap..]
  {
    var s := h + f;
    assert s[|s| - Cap..] == f[|f| - Cap..];
  }
}
