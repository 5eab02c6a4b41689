/** The four inference signals of one notification (internal/correlate/signals.go). */
module Signals {
  import opened Model
  import opened Ordering

  datatype Status = Current | Deprecated | Obsolete | OtherStatus

  datatype Symbol = Symbol(name: string, kind: Kind, status: Status, description: string, reference: string)

  datatype RefKind = NotificationObject | GroupMember | OtherRef

  datatype Ref = Ref(kind: RefKind, sourceModule: string, sourceName: string, targetModule: string, targetName: string)

  datatype Direction = Neither | RaiseDir | ClearDir

  /** The fixed word lists, as parameters. */
  datatype Vocabulary =
    Vocabulary(raiseTokens: set<string>, clearTokens: set<string>, clearPhrases: seq<string>, raisePhrases: seq<string>)

  // ---- Texts ----

  function Join(parts: seq<string>, sep: string): string {
    if parts == [] then ""
    else if |parts| == 1 then parts[0]
    else parts[0] + (sep + Join(parts[1..], sep))
  }

  function SortedNames(s: set<string>): (q: seq<string>)
    ensures Ascending(LexLe, q) && Elements(q) == s && |q| == |s|
  {
    LexLeTotal();
    Listing(s, LexLe)
  }

  predicate ContainsText(text: string, part: string) {
    exists i | 0 <= i <= |text| :: OccursAt(text, part, i)
  }

  predicate OccursAt(text: string, part: string, i: nat)
    requires i <= |text|
  {
    part <= text[i..]
  }

  /** The qualified key of a referenced object or group. */
  function Key(mod: string, name: string): (k: string)
    ensures k != ""
  {
    mod + "::" + name
  }

  /** The part after the last "::". */
  function Short(key: string): string {
    ShortFrom(key, |key|)
  }

  function ShortFrom(key: string, end: nat): string
    requires end <= |key|
  {
    if end < 2 then key
    else if key[end - 2] == ':' && key[end - 1] == ':' then key[end..]
    else ShortFrom(key, end - 1)
  }

  predicate ColonsAt(key: string, i: nat) {
    i + 2 <= |key| && key[i] == ':' && key[i + 1] == ':'
  }

  /** What follows the last pair of colons, or the whole text if there is none. */
  ghost predicate IsShort(key: string, short: string) {
    if exists i: nat :: ColonsAt(key, i) then
      exists i: nat :: ColonsAt(key, i) && (forall j: nat :: ColonsAt(key, j) ==> j <= i) && short == key[i + 2..]
    else short == key
  }

  lemma {:induction false} ShortFromIs(key: string, end: nat)
    requires end <= |key| && forall j: nat :: ColonsAt(key, j) ==> j + 2 <= end
    ensures IsShort(key, ShortFrom(key, end))
  {
    if end >= 2 {
      var i := end - 2;
      if ColonsAt(key, i) {
        assert key[i + 2..] == key[end..];
      } else {
        ShortFromIs(key, end - 1);
      }
    }
  }

  lemma {:induction false} ShortIs(key: string)
    ensures IsShort(key, Short(key))
  {
    ShortFromIs(key, |key|);
  }

  // ---- Tokens ----

  predicate IsUpper(c: char) { 'A' <= c <= 'Z' }

  predicate IsLower(c: char) { 'a' <= c <= 'z' }

  predicate IsSeparator(c: char) { c == '-' || c == '_' || c == ' ' || c == '.' }

  /** A token starts at `i`: a camelCase boundary, or the last capital of an acronym run before a word. */
  predicate Boundary(name: string, i: nat)
    requires i < |name|
  {
    IsUpper(name[i]) && i > 0
    && (IsLower(name[i - 1]) || (IsUpper(name[i - 1]) && i + 1 < |name| && IsLower(name[i + 1])))
  }

  function Flush(toks: seq<string>, cur: string): seq<string> {
    if cur == "" then toks else toks + [Lower(cur)]
  }

  /** The finished tokens and the open one after the first `n` characters. */
  function Scan(name: string, n: nat): (seq<string>, string)
    requires n <= |name|
  {
    if n == 0 then ([], "")
    else
      var (toks, cur) := Scan(name, n - 1);
      var c := name[n - 1];
      if IsSeparator(c) then (Flush(toks, cur), "")
      else if Boundary(name, n - 1) then (Flush(toks, cur), [c])
      else (toks, cur + [c])
  }

  function Tokens(name: string): seq<string> {
    var (toks, cur) := Scan(name, |name|);
    Flush(toks, cur)
  }

  method Tokenize(name: string) returns (toks: seq<string>)
    ensures toks == Tokens(name)
  {
    toks := [];
    var cur: string := "";
    for i := 0 to |name|
      invariant (toks, cur) == Scan(name, i)
    {
      if IsSeparator(name[i]) {
        toks := Flush(toks, cur);
        cur := "";
      } else {
        if IsUpper(name[i]) {
          if i > 0 && IsLower(name[i - 1]) {
            toks := Flush(toks, cur);
            cur := "";
          } else if i > 0 && IsUpper(name[i - 1]) && i + 1 < |name| && IsLower(name[i + 1]) {
            toks := Flush(toks, cur);
            cur := "";
          }
        }
        assert cur == "" ==> cur + [name[i]] == [name[i]];
        cur := cur + [name[i]];
      }
    }
    toks := Flush(toks, cur);
  }

  function Concat(parts: seq<string>): string {
    if parts == [] then "" else Concat(parts[..|parts| - 1]) + parts[|parts| - 1]
  }

  function WithoutSeparators(s: string): string {
    if s == "" then ""
    else WithoutSeparators(s[..|s| - 1]) + (if IsSeparator(s[|s| - 1]) then "" else [s[|s| - 1]])
  }

  lemma {:induction false} LowerSnoc(s: string, c: char)
    ensures Lower(s + [c]) == Lower(s) + [LowerChar(c)]
  {}

  lemma {:induction false} FlushConcat(toks: seq<string>, cur: string)
    ensures Concat(Flush(toks, cur)) == Concat(toks) + Lower(cur)
  {
    if cur != "" {
      assert (toks + [Lower(cur)])[..|toks|] == toks;
    }
  }

  lemma {:induction false} WithoutSnoc(s: string, c: char)
    ensures WithoutSeparators(s + [c]) == WithoutSeparators(s) + (if IsSeparator(c) then "" else [c])
  {
    assert (s + [c])[..|s|] == s;
  }

  lemma {:induction false} ReadSnoc(toks: seq<string>, cur: string, c: char)
    ensures Concat(toks) + Lower(cur + [c]) == (Concat(toks) + Lower(cur)) + [LowerChar(c)]
    ensures Concat(Flush(toks, cur)) + Lower([c]) == (Concat(toks) + Lower(cur)) + [LowerChar(c)]
  {
    LowerSnoc(cur, c);
    LowerSnoc("", c);
    FlushConcat(toks, cur);
    assert "" + [c] == [c];
  }

  lemma {:induction false} ScanLosesNothing(name: string, n: nat)
    requires n <= |name|
    ensures var (toks, cur) := Scan(name, n); Concat(toks) + Lower(cur) == Lower(WithoutSeparators(name[..n]))
  {
    if n > 0 {
      var (toks, cur) := Scan(name, n - 1);
      var c := name[n - 1];
      ScanLosesNothing(name, n - 1);
      assert name[..n] == name[..n - 1] + [c];
      WithoutSnoc(name[..n - 1], c);
      if IsSeparator(c) {
        FlushConcat(toks, cur);
      } else {
        ReadSnoc(toks, cur, c);
        LowerSnoc(WithoutSeparators(name[..n - 1]), c);
      }
    }
  }

  /** The tokens of a name, read in a row, are its lower-cased letters without separators. */
  lemma {:induction false} TokensLoseNothing(name: string)
    ensures Concat(Tokens(name)) == Lower(WithoutSeparators(name))
  {
    var (toks, cur) := Scan(name, |name|);
    ScanLosesNothing(name, |name|);
    FlushConcat(toks, cur);
    assert name[..|name|] == name;
  }

  /** A token starts at `i`: a character that follows nothing, a separator or a boundary. */
  predicate Starts(name: string, i: nat)
    requires i < |name|
  {
    !IsSeparator(name[i]) && (i == 0 || IsSeparator(name[i - 1]) || Boundary(name, i))
  }

  function StartCount(name: string, n: nat): nat
    requires n <= |name|
  {
    if n == 0 then 0 else StartCount(name, n - 1) + if Starts(name, n - 1) then 1 else 0
  }

  lemma {:induction false} ScanStarts(name: string, n: nat)
    requires n <= |name|
    ensures var (toks, cur) := Scan(name, n);
            && |toks| + (if cur == "" then 0 else 1) == StartCount(name, n)
            && (forall t :: t in toks ==> t != "")
            && (cur == "" <==> n == 0 || IsSeparator(name[n - 1]))
  {
    if n > 0 {
      ScanStarts(name, n - 1);
    }
  }

  /** Where a token that reaches `j` ends: at the next start or separator. */
  function EndFrom(name: string, j: nat): (e: nat)
    requires j <= |name|
    ensures j <= e <= |name| && (e < |name| ==> IsSeparator(name[e]) || Starts(name, e))
    ensures forall x :: j <= x < e ==> !IsSeparator(name[x]) && !Starts(name, x)
    decreases |name| - j
  {
    if j == |name| || IsSeparator(name[j]) || Starts(name, j) then j else EndFrom(name, j + 1)
  }

  /** The token that starts at `i`, once `n` characters are read: finished, or still open. */
  ghost predicate CutAt(name: string, i: nat, n: nat)
    requires i < n <= |name|
  {
    var (toks, cur) := Scan(name, n);
    var k, e := StartCount(name, i), EndFrom(name, i + 1);
    if e < n then k < |toks| && toks[k] == Lower(name[i..e]) else k == |toks| && cur == name[i..n]
  }

  lemma {:induction false} CutsOpen(name: string, i: nat)
    requires i < |name| && Starts(name, i)
    ensures CutAt(name, i, i + 1)
  {
    ScanStarts(name, i);
    assert name[i..i + 1] == [name[i]];
  }

  lemma {:induction false} CutsOn(name: string, i: nat, n: nat)
    requires i < n < |name| && Starts(name, i) && CutAt(name, i, n)
    ensures CutAt(name, i, n + 1)
  {
    var e := EndFrom(name, i + 1);
    if n < e {
      assert !Boundary(name, n);
      assert name[i..n + 1] == name[i..n] + [name[n]];
    } else if n == e {
      ScanStarts(name, n);
      assert n - 1 > i ==> !IsSeparator(name[n - 1]);
    }
  }

  lemma {:induction false} ScanCuts(name: string, i: nat, n: nat)
    requires i < n <= |name| && Starts(name, i)
    ensures CutAt(name, i, n)
  {
    if n == i + 1 {
      CutsOpen(name, i);
    } else {
      ScanCuts(name, i, n - 1);
      CutsOn(name, i, n - 1);
    }
  }

  lemma {:induction false} StartFound(name: string, n: nat, k: nat)
    requires n <= |name| && k < StartCount(name, n)
    ensures exists i: nat :: i < n && Starts(name, i) && StartCount(name, i) == k
  {
    if k < StartCount(name, n - 1) {
      StartFound(name, n - 1, k);
    } else {
      assert Starts(name, n - 1);
    }
  }

  lemma {:induction false} CountGrows(name: string, i: nat, n: nat)
    requires i < n <= |name| && Starts(name, i)
    ensures StartCount(name, i) < StartCount(name, n)
  {
    if i < n - 1 {
      CountGrows(name, i, n - 1);
    }
  }

  /** The text of the `k`-th token: from the `k`-th start up to the next start or separator, in lower case. */
  ghost predicate IsTokenFrom(name: string, i: nat, k: nat)
    requires k < |Tokens(name)|
  {
    i < |name| && Starts(name, i) && StartCount(name, i) == k
    && Tokens(name)[k] == Lower(name[i..EndFrom(name, i + 1)])
  }

  ghost predicate HasStart(name: string, k: nat) {
    k < |Tokens(name)| && exists i: nat :: IsTokenFrom(name, i, k)
  }

  /** There are exactly as many tokens as places where one starts, and each is the text from its start to its end. */
  lemma {:induction false} TokensAreCutAtStarts(name: string)
    ensures |Tokens(name)| == StartCount(name, |name|) && forall t :: t in Tokens(name) ==> t != ""
    ensures forall i: nat :: i < |name| && Starts(name, i) ==>
              StartCount(name, i) < |Tokens(name)| && IsTokenFrom(name, i, StartCount(name, i))
    ensures forall k: nat :: k < |Tokens(name)| ==> HasStart(name, k)
  {
    ScanStarts(name, |name|);
    forall i: nat | i < |name| && Starts(name, i)
      ensures StartCount(name, i) < |Tokens(name)| && IsTokenFrom(name, i, StartCount(name, i))
    {
      CountGrows(name, i, |name|);
      ScanCuts(name, i, |name|);
    }
    forall k: nat | k < |Tokens(name)| ensures HasStart(name, k) {
      StartFound(name, |name|, k);
      var i: nat :| i < |name| && Starts(name, i) && StartCount(name, i) == k;
      assert IsTokenFrom(name, i, k);
    }
  }

  /** A character that only separates words. */
  predicate BetweenWords(c: char) {
    c == '-' || c == '_' || c == ' ' || c == '.'
  }

  predicate Capital(c: char) { 'A' <= c <= 'Z' }

  predicate Small(c: char) { 'a' <= c <= 'z' }

  /**
   * A word begins at `i`: after nothing or a separator, with a capital after a small letter, or with a capital that
   * ends a run of capitals before a small letter.
   */
  predicate BeginsWord(name: string, i: nat) {
    && i < |name| && !BetweenWords(name[i])
    && (|| i == 0 || BetweenWords(name[i - 1])
        || (Capital(name[i]) && Small(name[i - 1]))
        || (Capital(name[i]) && Capital(name[i - 1]) && i + 1 < |name| && Small(name[i + 1])))
  }

  /** The word that begins at `i` ends before `e`: at the end, a separator or the next word. */
  predicate WordAt(name: string, i: nat, e: nat) {
    && BeginsWord(name, i) && i < e <= |name|
    && (e == |name| || BetweenWords(name[e]) || BeginsWord(name, e))
    && forall x: nat :: i < x < e ==> !BetweenWords(name[x]) && !BeginsWord(name, x)
  }

  ghost predicate IsWordFrom(name: string, i: nat, tok: string) {
    exists e: nat :: WordAt(name, i, e) && tok == Lower(name[i..e])
  }

  /** The tokens are the words of the name in order, in lower case; `begins` is where they begin. */
  ghost predicate AreWords(name: string, toks: seq<string>, begins: seq<nat>) {
    && |toks| == |begins| && (forall j, k :: 0 <= j < k < |begins| ==> begins[j] < begins[k])
    && (forall i: nat :: i in begins <==> BeginsWord(name, i))
    && forall k: nat :: k < |toks| ==> IsWordFrom(name, begins[k], toks[k])
  }

  lemma {:induction false} StartsIs(name: string, i: nat)
    ensures BeginsWord(name, i) <==> i < |name| && Starts(name, i)
  {}

  function StartsUpTo(name: string, n: nat): (q: seq<nat>)
    requires n <= |name|
    ensures |q| == StartCount(name, n)
  {
    if n == 0 then [] else StartsUpTo(name, n - 1) + if Starts(name, n - 1) then [n - 1] else []
  }

  ghost predicate IsStart(name: string, i: nat, n: nat, k: nat) {
    i < n && i < |name| && Starts(name, i) && StartCount(name, i) == k
  }

  ghost predicate ListsStarts(name: string, n: nat, q: seq<nat>) {
    && (forall k: nat :: k < |q| ==> IsStart(name, q[k], n, k))
    && (forall i: nat :: i < n && i < |name| && Starts(name, i) ==> i in q)
    && (forall j, k :: 0 <= j < k < |q| ==> q[j] < q[k])
  }

  lemma {:induction false} StartsAreListed(name: string, n: nat)
    requires n <= |name|
    ensures ListsStarts(name, n, StartsUpTo(name, n))
  {
    if n > 0 {
      StartsAreListed(name, n - 1);
    }
  }

  lemma {:induction false} TokenIsWord(name: string, i: nat, k: nat)
    requires k < |Tokens(name)| && IsTokenFrom(name, i, k)
    ensures IsWordFrom(name, i, Tokens(name)[k])
  {
    var e := EndFrom(name, i + 1);
    StartsIs(name, i);
    StartsIs(name, e);
    forall x: nat | i < x < e ensures !BetweenWords(name[x]) && !BeginsWord(name, x) {
      StartsIs(name, x);
    }
    assert WordAt(name, i, e);
  }

  /** The tokens are exactly the words of the name, in order and in lower case. */
  lemma {:induction false} TokensAreWords(name: string) returns (begins: seq<nat>)
    ensures AreWords(name, Tokens(name), begins)
  {
    begins := StartsUpTo(name, |name|);
    BeginsAre(name);
    TokensAreCutAtStarts(name);
    forall k: nat | k < |begins|
      ensures IsWordFrom(name, begins[k], Tokens(name)[k])
    {
      TokenFromBegin(name, k);
    }
  }

  lemma {:induction false} BeginsAre(name: string)
    ensures var begins := StartsUpTo(name, |name|);
            && (forall i: nat :: i in begins <==> BeginsWord(name, i))
            && (forall j, k :: 0 <= j < k < |begins| ==> begins[j] < begins[k])
  {
    var begins := StartsUpTo(name, |name|);
    StartsAreListed(name, |name|);
    forall i: nat ensures i in begins <==> BeginsWord(name, i) {
      StartsIs(name, i);
      if i in begins {
        var k: nat :| k < |begins| && begins[k] == i;
        assert IsStart(name, begins[k], |name|, k);
      }
      if BeginsWord(name, i) {
        assert i < |name| && Starts(name, i);
        assert i in begins;
      }
    }
  }

  lemma {:induction false} TokenFromBegin(name: string, k: nat)
    requires k < |StartsUpTo(name, |name|)|
    ensures k < |Tokens(name)|
    ensures IsWordFrom(name, StartsUpTo(name, |name|)[k], Tokens(name)[k])
  {
    var i := StartsUpTo(name, |name|)[k];
    StartsAreListed(name, |name|);
    TokensAreCutAtStarts(name);
    assert IsStart(name, i, |name|, k);
    TokenIsWord(name, i, k);
  }

  /** Lower-case letters extend the open token. */
  lemma {:induction false} LowerRun(name: string, i: nat, n: nat)
    requires i <= n <= |name| && forall k :: i <= k < n ==> IsLower(name[k])
    ensures Scan(name, n).0 == Scan(name, i).0 && Scan(name, n).1 == Scan(name, i).1 + name[i..n]
  {
    if i < n {
      LowerRun(name, i, n - 1);
      assert name[i..n] == name[i..n - 1] + [name[n - 1]];
    } else {
      assert name[i..n] == [];
    }
  }

  // ---- Direction ----

  function TokenDirection(t: string, v: Vocabulary): Direction {
    if t in v.raiseTokens then RaiseDir else if t in v.clearTokens then ClearDir else Neither
  }

  /** The position of the last directional token. */
  function LastDirectional(toks: seq<string>, v: Vocabulary): (r: Option<nat>)
    ensures r.Some? ==> r.value < |toks| && TokenDirection(toks[r.value], v) != Neither
                        && forall k :: r.value < k < |toks| ==> TokenDirection(toks[k], v) == Neither
    ensures r.None? ==> forall k :: 0 <= k < |toks| ==> TokenDirection(toks[k], v) == Neither
  {
    if toks == [] then None
    else if TokenDirection(toks[|toks| - 1], v) != Neither then Some(|toks| - 1)
    else
      assert forall k :: 0 <= k < |toks| - 1 ==> toks[..|toks| - 1][k] == toks[k];
      LastDirectional(toks[..|toks| - 1], v)
  }

  function SplitAt(toks: seq<string>, at: Option<nat>, v: Vocabulary): (string, Direction)
    requires at.Some? ==> at.value < |toks|
  {
    match at
    case None => (Join(toks, "-"), Neither)
    case Some(k) => (Join(toks[..k] + toks[k + 1..], "-"), TokenDirection(toks[k], v))
  }

  /** The name root and direction. */
  method SplitDirection(toks: seq<string>, v: Vocabulary) returns (root: string, dir: Direction)
    ensures (root, dir) == SplitAt(toks, LastDirectional(toks, v), v)
  {
    var at: Option<nat> := None;
    dir := Neither;
    for i := 0 to |toks|
      invariant at == LastDirectional(toks[..i], v)
      invariant dir == if at.Some? then TokenDirection(toks[at.value], v) else Neither
    {
      assert toks[..i + 1][..i] == toks[..i];
      if toks[i] in v.raiseTokens {
        at, dir := Some(i), RaiseDir;
      } else if toks[i] in v.clearTokens {
        at, dir := Some(i), ClearDir;
      }
    }
    assert toks[..|toks|] == toks;
    if at.None? {
      root := Join(toks, "-");
    } else {
      root := Join(toks[..at.value] + toks[at.value + 1..], "-");
    }
  }

  /** The first phrase of the list found in the text. */
  function FirstPhrase(text: string, phrases: seq<string>): Option<string> {
    if phrases == [] then None
    else if ContainsText(text, phrases[0]) then Some(phrases[0])
    else FirstPhrase(text, phrases[1..])
  }

  /** Clear phrases are looked for first. */
  function ProseDirection(s: Symbol, v: Vocabulary): (Direction, string) {
    var text := Lower(s.description + " " + s.reference);
    match FirstPhrase(text, v.clearPhrases)
    case Some(p) => (ClearDir, p)
    case None =>
      match FirstPhrase(text, v.raisePhrases)
      case Some(p) => (RaiseDir, p)
      case None => (Neither, "")
  }

  // ---- Varbinds and groups, read off the reference rows ----

  function VarbindsOf(refs: seq<Ref>, n: string): set<string> {
    set r | r in refs && r.kind == NotificationObject && r.sourceName == n :: Key(r.targetModule, r.targetName)
  }

  function GroupsOf(refs: seq<Ref>, n: string): set<string> {
    set r | r in refs && r.kind == GroupMember && r.targetName == n :: Key(r.sourceModule, r.sourceName)
  }

  predicate CountsFor(r: Ref, names: set<string>, g: string) {
    r.kind == GroupMember && r.targetName in names && Key(r.sourceModule, r.sourceName) == g
  }

  /** How many rows, repeats included, put a notification of the module into the group. */
  function GroupRows(refs: seq<Ref>, names: set<string>, g: string): nat {
    if refs == [] then 0
    else GroupRows(refs[..|refs| - 1], names, g) + (if CountsFor(refs[|refs| - 1], names, g) then 1 else 0)
  }

  function At(m: map<string, set<string>>, k: string): set<string> {
    if k in m then m[k] else {}
  }

  lemma {:induction false} SetsSnoc(refs: seq<Ref>, r: Ref, n: string)
    ensures VarbindsOf(refs + [r], n) == VarbindsOf(refs, n)
              + (if r.kind == NotificationObject && r.sourceName == n then {Key(r.targetModule, r.targetName)} else {})
    ensures GroupsOf(refs + [r], n) == GroupsOf(refs, n)
              + (if r.kind == GroupMember && r.targetName == n then {Key(r.sourceModule, r.sourceName)} else {})
  {
    assert forall x :: x in refs + [r] <==> x in refs || x == r;
  }

  method VarbindSets(refs: seq<Ref>) returns (out: map<string, set<string>>)
    ensures forall n :: At(out, n) == VarbindsOf(refs, n)
  {
    out := map[];
    for i := 0 to |refs|
      invariant forall n :: At(out, n) == VarbindsOf(refs[..i], n)
    {
      var r := refs[i];
      assert refs[..i + 1] == refs[..i] + [r];
      forall n {
        SetsSnoc(refs[..i], r, n);
      }
      if r.kind == NotificationObject {
        out := out[r.sourceName := At(out, r.sourceName) + {Key(r.targetModule, r.targetName)}];
      }
    }
    assert refs[..|refs|] == refs;
  }

  method GroupSets(refs: seq<Ref>) returns (out: map<string, set<string>>)
    ensures forall n :: At(out, n) == GroupsOf(refs, n)
  {
    out := map[];
    for i := 0 to |refs|
      invariant forall n :: At(out, n) == GroupsOf(refs[..i], n)
    {
      var r := refs[i];
      assert refs[..i + 1] == refs[..i] + [r];
      forall n {
        SetsSnoc(refs[..i], r, n);
      }
      if r.kind == GroupMember {
        out := out[r.targetName := At(out, r.targetName) + {Key(r.sourceModule, r.sourceName)}];
      }
    }
    assert refs[..|refs|] == refs;
  }

  function CountAt(m: map<string, nat>, k: string): nat {
    if k in m then m[k] else 0
  }

  method GroupCounts(refs: seq<Ref>, names: set<string>) returns (out: map<string, nat>)
    ensures forall g :: CountAt(out, g) == GroupRows(refs, names, g)
  {
    out := map[];
    for i := 0 to |refs|
      invariant forall g :: CountAt(out, g) == GroupRows(refs[..i], names, g)
    {
      var r := refs[i];
      assert refs[..i + 1][..i] == refs[..i];
      if r.kind == GroupMember && r.targetName in names {
        var g := Key(r.sourceModule, r.sourceName);
        out := out[g := CountAt(out, g) + 1];
      }
    }
    assert refs[..|refs|] == refs;
  }

  /** The sorted keys joined by "|"; no key, no signature. */
  function Signature(vb: set<string>): string {
    Join(SortedNames(vb), "|")
  }

  /** The least key in both sets, or "". */
  function FirstShared(a: set<string>, b: set<string>): (k: string)
    ensures k != "" ==> k in a && k in b && forall x :: x in a && x in b ==> LexLe(k, x)
    ensures a * b == {} ==> k == ""
    ensures "" !in a && a * b != {} ==> k != ""
  {
    var q := SortedNames(a * b);
    if q == [] then (assert Elements(q) == {}; "")
    else
      assert forall x :: x in a * b ==> x in Elements(q);
      assert q[0] in Elements(q);
      assert LexLe(q[0], q[0]) by { LexLeTotal(); }
      q[0]
  }

  predicate Legacy(s: Status) {
    s == Deprecated || s == Obsolete
  }

  // ---- The signature identifies the set ----

  predicate NoBar(s: string) {
    forall i :: 0 <= i < |s| ==> s[i] != '|'
  }

  lemma {:induction false} JoinInjective(p: seq<string>, q: seq<string>)
    requires forall s :: s in p || s in q ==> NoBar(s) && s != ""
    requires Join(p, "|") == Join(q, "|")
    ensures p == q
  {
    JoinEmpty(p);
    JoinEmpty(q);
    if p != [] && q != [] {
      HeadIsUpToBar(p);
      HeadIsUpToBar(q);
      var s := Join(p, "|");
      assert p[0] in p && q[0] in q;
      HeadsEndAlike(p[0], q[0], s);
      HeadsEndAlike(q[0], p[0], s);
      assert p[0] == s[..|p[0]|] == q[0];
      JoinInjective(p[1..], q[1..]);
      assert p == [p[0]] + p[1..] && q == [q[0]] + q[1..];
    }
  }

  /** A bar-free prefix does not reach past the first bar. */
  lemma {:induction false} HeadsEndAlike(a: string, b: string, s: string)
    requires a <= s && b <= s && NoBar(b) && (|s| == |a| || s[|a|] == '|')
    ensures |b| <= |a|
  {
    assert forall i :: 0 <= i < |b| ==> b[i] == s[i] && s[i] != '|';
  }

  lemma {:induction false} JoinEmpty(p: seq<string>)
    requires forall s :: s in p ==> s != ""
    ensures Join(p, "|") == "" <==> p == []
  {
    if p != [] {
      assert p[0] in p;
    }
  }

  /** Joined text starts with the first part, and the rest of the parts can be read behind it. */
  lemma {:induction false} HeadIsUpToBar(p: seq<string>)
    requires p != [] && forall s :: s in p ==> s != ""
    ensures var s := Join(p, "|");
            && p[0] <= s
            && (|s| == |p[0]| <==> |p| == 1)
            && (|p| > 1 ==> s[|p[0]|] == '|' && s[|p[0]| + 1..] == Join(p[1..], "|"))
            && (|p| == 1 ==> Join(p[1..], "|") == "")
  {}

  /** Equal non-empty signatures of bar-free keys are equal varbind sets. */
  lemma {:induction false} SignatureIdentifies(a: set<string>, b: set<string>)
    requires forall k :: k in a || k in b ==> NoBar(k) && k != ""
    requires Signature(a) == Signature(b)
    ensures a == b
  {
    var p, q := SortedNames(a), SortedNames(b);
    assert forall s :: s in p ==> s in Elements(p);
    assert forall s :: s in q ==> s in Elements(q);
    JoinInjective(p, q);
  }
}
