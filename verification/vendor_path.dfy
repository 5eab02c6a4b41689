/**
 * Vendor directories: the classifier that names them (internal/mibcorpus/classify.go), the slug rules
 * (internal/iana/pen.go) and the index tool that reads them back (cmd/mib-index/parse.go).
 */
module VendorPath {
  import opened Model
  import opened Decimal
  import opened Signals

  const PEN_LIMIT: nat := 0x1_0000_0000

  // ---- Strings ----

  function IndexOf(s: string, c: char): (r: Option<nat>)
    ensures r.Some? ==> r.value < |s| && s[r.value] == c && forall k :: 0 <= k < r.value ==> s[k] != c
    ensures r.None? ==> forall k :: 0 <= k < |s| ==> s[k] != c
  {
    if s == "" then None
    else if s[0] == c then Some(0)
    else
      match IndexOf(s[1..], c)
      case None => assert forall k :: 0 < k < |s| ==> s[k] == s[1..][k - 1]; None
      case Some(k) => Some(k + 1)
  }

  predicate Lacks(s: string, c: char) {
    forall k :: 0 <= k < |s| ==> s[k] != c
  }

  lemma {:induction false} IndexIs(a: string, c: char, b: string)
    requires Lacks(a, c)
    ensures IndexOf(a + ([c] + b), c) == Some(|a|)
  {
    var s := a + ([c] + b);
    assert s[|a|] == c;
    assert forall k :: 0 <= k < |a| ==> s[k] == a[k];
  }

  /** strconv.ParseUint(s, 10, 32). */
  function ParseUint(s: string): Option<nat> {
    if s != "" && AllDigits(s) && Value(s) < PEN_LIMIT then Some(Value(s)) else None
  }

  /** A number in canonical decimal between 1 and the 32-bit limit. */
  function ParsePen(s: string): (n: Option<nat>)
    ensures n.Some? <==> exists k: nat :: 0 < k < 4294967296 && s == Dec(k)
    ensures n.Some? ==> 0 < n.value < 4294967296 && s == Dec(n.value)
  {
    PenText(s);
    match ParseUint(s)
    case None => None
    case Some(n) => if n == 0 || s != Dec(n) then None else Some(n)
  }

  lemma {:induction false} PenText(s: string)
    ensures (exists k: nat :: 0 < k < PEN_LIMIT && s == Dec(k)) ==>
              ParseUint(s).Some? && ParseUint(s).value > 0 && s == Dec(ParseUint(s).value)
  {
    if k: nat :| 0 < k < PEN_LIMIT && s == Dec(k) {
      ValueOfDec(k);
    }
  }

  // ---- Reading a path back ----

  const VENDORS := "vendors/"

  /** The directory name below vendors/, if a file follows. */
  function Bucket(rel: string): Option<string> {
    if !(VENDORS <= rel) then None
    else
      var rest := rel[|VENDORS|..];
      match IndexOf(rest, '/')
      case None => None
      case Some(slash) => if slash == 0 then None else Some(rest[..slash])
  }

  function PenOfBucket(bucket: string): Option<(nat, string)> {
    match IndexOf(bucket, '-')
    case None => None
    case Some(dash) =>
      if dash == 0 || dash == |bucket| - 1 then None
      else
        match ParsePen(bucket[..dash])
        case None => None
        case Some(n) => Some((n, bucket[dash + 1..]))
  }

  function PenFromPath(rel: string): Option<(nat, string)> {
    match Bucket(rel)
    case None => None
    case Some(bucket) => PenOfBucket(bucket)
  }

  function BucketName(n: nat, slug: string): string {
    Dec(n) + ("-" + slug)
  }

  /** The path of a file in a directory below vendors/. */
  function FileIn(bucket: string, rest: string): string {
    VENDORS + (bucket + ("/" + rest))
  }

  lemma {:induction false} BucketOfFile(bucket: string, rest: string)
    requires bucket != "" && Lacks(bucket, '/')
    ensures Bucket(FileIn(bucket, rest)) == Some(bucket)
  {
    var rel := FileIn(bucket, rest);
    IndexIs(bucket, '/', rest);
    assert rel[|VENDORS|..] == bucket + ("/" + rest);
    assert (bucket + ("/" + rest))[..|bucket|] == bucket;
  }

  lemma {:induction false} FileOfBucket(rel: string)
    requires Bucket(rel).Some?
    ensures var bucket := Bucket(rel).value;
            bucket != "" && Lacks(bucket, '/') && exists rest :: rel == FileIn(bucket, rest)
  {
    var rest, bucket := rel[|VENDORS|..], Bucket(rel).value;
    var tail := rest[|bucket| + 1..];
    assert rest == bucket + ("/" + tail);
    assert rel == FileIn(bucket, tail);
  }

  lemma {:induction false} BucketIff(rel: string, bucket: string)
    ensures Bucket(rel) == Some(bucket)
       <==> bucket != "" && Lacks(bucket, '/') && exists rest :: rel == FileIn(bucket, rest)
  {
    if bucket != "" && Lacks(bucket, '/') {
      if rest :| rel == FileIn(bucket, rest) {
        BucketOfFile(bucket, rest);
      }
    }
    if Bucket(rel) == Some(bucket) {
      FileOfBucket(rel);
    }
  }

  lemma {:induction false} DecLacks(n: nat)
    ensures Lacks(Dec(n), '-') && Lacks(Dec(n), '/') && Dec(n) != ""
  {
    ValueOfDec(n);
    assert forall i :: 0 <= i < |Dec(n)| ==> IsDigit(Dec(n)[i]);
  }

  lemma {:induction false} ParsePenOfDec(n: nat)
    requires 0 < n < PEN_LIMIT
    ensures ParsePen(Dec(n)) == Some(n)
  {
    ValueOfDec(n);
    ValueOfDec(ParsePen(Dec(n)).value);
  }

  lemma {:induction false} PenOfBucketName(n: nat, slug: string)
    requires 0 < n < PEN_LIMIT && slug != ""
    ensures PenOfBucket(BucketName(n, slug)) == Some((n, slug))
  {
    DecLacks(n);
    IndexIs(Dec(n), '-', slug);
    ParsePenOfDec(n);
    assert BucketName(n, slug)[..|Dec(n)|] == Dec(n) && BucketName(n, slug)[|Dec(n)| + 1..] == slug;
  }

  lemma {:induction false} PenOfBucketIff(bucket: string, n: nat, slug: string)
    ensures PenOfBucket(bucket) == Some((n, slug)) <==> 0 < n < PEN_LIMIT && slug != "" && bucket == BucketName(n, slug)
  {
    if 0 < n < PEN_LIMIT && slug != "" {
      PenOfBucketName(n, slug);
    }
    if PenOfBucket(bucket) == Some((n, slug)) {
      PenIsRead(bucket, n, slug);
    }
  }

  lemma {:induction false} PenIsRead(bucket: string, n: nat, slug: string)
    requires PenOfBucket(bucket) == Some((n, slug))
    ensures 0 < n < PEN_LIMIT && slug != "" && bucket == BucketName(n, slug)
  {
    var dash := IndexOf(bucket, '-').value;
    assert ParsePen(bucket[..dash]) == Some(n) && slug == bucket[dash + 1..];
    assert bucket == bucket[..dash] + ("-" + bucket[dash + 1..]);
  }

  lemma {:induction false} NameLacks(n: nat, slug: string)
    ensures Lacks(BucketName(n, slug), '/') <==> Lacks(slug, '/')
  {
    DecLacks(n);
    var name := BucketName(n, slug);
    assert forall k :: 0 <= k < |Dec(n)| ==> name[k] == Dec(n)[k];
    assert name[|Dec(n)|] == '-' && forall k :: 0 <= k < |slug| ==> name[|Dec(n)| + 1 + k] == slug[k];
    assert forall k :: |Dec(n)| < k < |name| ==> name[k] == slug[k - |Dec(n)| - 1];
  }

  /** Exactly the paths of the form vendors/{PEN}-{slug}/... are read, and with that number and slug. */
  lemma {:induction false} PenFromPathIff(rel: string, n: nat, slug: string)
    ensures PenFromPath(rel) == Some((n, slug))
       <==> 0 < n < 4294967296 && slug != "" && Lacks(slug, '/')
            && exists rest :: rel == FileIn(BucketName(n, slug), rest)
  {
    BucketIff(rel, BucketName(n, slug));
    NameLacks(n, slug);
    PenOfBucketIff(BucketName(n, slug), n, slug);
    if Bucket(rel).Some? {
      PenOfBucketIff(Bucket(rel).value, n, slug);
      BucketIff(rel, Bucket(rel).value);
    }
  }

  // ---- Slugs ----

  /** The organisation table, the built-in slug table and the word list of pen.go, and Go's text folding. */
  datatype Registry =
    Registry(orgs: map<nat, string>, slugs: map<string, string>, suffixes: set<string>,
             lower: string -> string, key: string -> string)

  /** The built-in slugs are file names. */
  ghost predicate GoodTable(reg: Registry) {
    forall k :: k in reg.slugs ==> reg.slugs[k] != "" && Lacks(reg.slugs[k], '/')
  }

  predicate SlugChar(c: char) {
    'a' <= c <= 'z' || '0' <= c <= '9' || c == '-'
  }

  predicate SlugText(s: string) {
    forall i :: 0 <= i < |s| ==> SlugChar(s[i])
  }

  /** What is outside parentheses in the first `n` characters, and how many are still open. */
  function Outside(s: string, n: nat): (string, nat)
    requires n <= |s|
  {
    if n == 0 then ("", 0)
    else
      var (kept, depth) := Outside(s, n - 1);
      if s[n - 1] == '(' then (kept, depth + 1)
      else if s[n - 1] == ')' then (kept, if depth > 0 then depth - 1 else 0)
      else (if depth == 0 then kept + [s[n - 1]] else kept, depth)
  }

  method StripParens(s: string) returns (kept: string)
    ensures kept == Outside(s, |s|).0
  {
    kept := "";
    var depth: nat := 0;
    for i := 0 to |s|
      invariant (kept, depth) == Outside(s, i)
    {
      if s[i] == '(' {
        depth := depth + 1;
      } else if s[i] == ')' {
        if depth > 0 {
          depth := depth - 1;
        }
      } else if depth == 0 {
        kept := kept + [s[i]];
      }
    }
  }

  /** No parenthesis is kept, and text without any is kept whole. */
  lemma {:induction false} OutsideKeeps(s: string, n: nat)
    requires n <= |s|
    ensures var (kept, depth) := Outside(s, n);
            && Lacks(kept, '(') && Lacks(kept, ')')
            && (Lacks(s, '(') && Lacks(s, ')') ==> kept == s[..n] && depth == 0)
  {
    if n > 0 {
      OutsideKeeps(s, n - 1);
      assert s[..n] == s[..n - 1] + [s[n - 1]];
    }
  }

  lemma {:induction false} OutsideGoesOn(a: string, b: string, n: nat)
    requires n <= |b| && Outside(a, |a|).1 == 0
    ensures Outside(a + b, |a| + n) == (Outside(a, |a|).0 + Outside(b, n).0, Outside(b, n).1)
  {
    if n > 0 {
      OutsideGoesOn(a, b, n - 1);
      var kept, c := Outside(b, n - 1).0, b[n - 1];
      assert (a + b)[|a| + n - 1] == c;
      assert (Outside(a, |a|).0 + kept) + [c] == Outside(a, |a|).0 + (kept + [c]);
    } else {
      OutsideOfPrefix(a, b, |a|);
      assert Outside(a, |a|).0 + "" == Outside(a, |a|).0;
    }
  }

  lemma {:induction false} OutsideOfPrefix(a: string, b: string, n: nat)
    requires n <= |a|
    ensures Outside(a + b, n) == Outside(a, n)
  {
    if n > 0 {
      OutsideOfPrefix(a, b, n - 1);
    }
  }

  lemma {:induction false} InsideGoes(b: string, n: nat)
    requires n <= |b| && Lacks(b, '(') && Lacks(b, ')')
    ensures Outside("(" + b, 1 + n) == ("", 1)
  {
    if n > 0 {
      InsideGoes(b, n - 1);
      assert ("(" + b)[n] == b[n - 1];
    } else {
      assert Outside("(" + b, 0) == ("", 0);
    }
  }

  lemma {:induction false} ClosingEnds(b: string)
    requires Lacks(b, '(') && Lacks(b, ')')
    ensures var p := ("(" + b) + ")"; Outside(p, |p|) == ("", 0)
  {
    var open := "(" + b;
    var p := open + ")";
    InsideGoes(b, |b|);
    OutsideOfPrefix(open, ")", |open|);
    assert p[|p| - 1] == ')' && |p| - 1 == |open|;
  }

  lemma {:induction false} PlainStays(a: string)
    requires Lacks(a, '(') && Lacks(a, ')')
    ensures Outside(a, |a|) == (a, 0)
  {
    OutsideKeeps(a, |a|);
    assert a[..|a|] == a;
  }

  /** What one pair of parentheses encloses goes, with the pair; what stands around it stays. */
  lemma {:induction false} ParenthesesGo(a: string, b: string, c: string)
    requires Lacks(a, '(') && Lacks(a, ')') && Lacks(b, '(') && Lacks(b, ')') && Lacks(c, '(') && Lacks(c, ')')
    ensures var s := a + ((("(" + b) + ")") + c); Outside(s, |s|) == (a + c, 0)
  {
    var p := ("(" + b) + ")";
    ClosingEnds(b);
    PlainStays(a);
    PlainStays(c);
    OutsideGoesOn(p, c, |c|);
    assert "" + c == c && |p| + |c| == |p + c|;
    OutsideGoesOn(a, p + c, |p + c|);
  }

  /** Every character outside the slug alphabet becomes a space. */
  function Normal(s: string): (t: string)
    ensures |t| == |s| && forall i :: 0 <= i < |t| ==> t[i] == if SlugChar(s[i]) then s[i] else ' '
  {
    seq(|s|, i requires 0 <= i < |s| => if SlugChar(s[i]) then s[i] else ' ')
  }

  /** The first word: what precedes the first space. */
  function Word(s: string): string {
    if s == "" || s[0] == ' ' then "" else [s[0]] + Word(s[1..])
  }

  lemma {:induction false} WordIsPrefix(s: string)
    ensures Word(s) <= s && Lacks(Word(s), ' ') && (s != "" && s[0] != ' ' ==> Word(s) != "")
  {
    if s != "" && s[0] != ' ' {
      WordIsPrefix(s[1..]);
      assert s == [s[0]] + s[1..];
    }
  }

  /** strings.Fields on text whose only white space is ' '. */
  function Fields(s: string): seq<string>
    decreases |s|
  {
    if s == "" then []
    else if s[0] == ' ' then Fields(s[1..])
    else
      WordIsPrefix(s);
      [Word(s)] + Fields(s[|Word(s)|..])
  }

  ghost predicate SlugTokens(q: seq<string>) {
    forall t :: t in q ==> t != "" && SlugText(t)
  }

  lemma {:induction false} FieldsAreSlugs(s: string)
    requires forall i :: 0 <= i < |s| ==> SlugChar(s[i]) || s[i] == ' '
    ensures SlugTokens(Fields(s))
    decreases |s|
  {
    if s != "" {
      if s[0] == ' ' {
        FieldsAreSlugs(s[1..]);
      } else {
        WordIsPrefix(s);
        var w := Word(s);
        assert forall i :: 0 <= i < |w| ==> w[i] == s[i] && w[i] != ' ';
        FieldsAreSlugs(s[|w|..]);
      }
    }
  }

  function Popped(tokens: seq<string>, reg: Registry): seq<string> {
    if tokens != [] && reg.lower(tokens[|tokens| - 1]) in reg.suffixes then Popped(tokens[..|tokens| - 1], reg)
    else tokens
  }

  /** Trailing suffix words go, unless nothing else is left. */
  function Kept(all: seq<string>, reg: Registry): seq<string> {
    if Popped(all, reg) == [] then all else Popped(all, reg)
  }

  /** The words kept are the first ones up to the last that is no suffix word, or all if there is no such word. */
  lemma {:induction false} KeptIs(all: seq<string>, reg: Registry)
    ensures var kept := Kept(all, reg);
            && kept <= all && (all != [] ==> kept != [])
            && (forall k :: |kept| <= k < |all| ==> reg.lower(all[k]) in reg.suffixes)
            && (all != [] && reg.lower(kept[|kept| - 1]) in reg.suffixes ==>
                  kept == all && forall t :: t in all ==> reg.lower(t) in reg.suffixes)
  {
    PoppedIs(all, reg);
  }

  lemma {:induction false} PoppedIs(tokens: seq<string>, reg: Registry)
    ensures var popped := Popped(tokens, reg);
            && popped <= tokens && (popped != [] ==> reg.lower(popped[|popped| - 1]) !in reg.suffixes)
            && (forall k :: |popped| <= k < |tokens| ==> reg.lower(tokens[k]) in reg.suffixes)
  {
    if tokens != [] && reg.lower(tokens[|tokens| - 1]) in reg.suffixes {
      PoppedIs(tokens[..|tokens| - 1], reg);
    }
  }

  function TrimDashes(s: string): string {
    if s != "" && s[|s| - 1] == '-' then TrimDashes(s[..|s| - 1]) else s
  }

  const SLUG_LIMIT: nat := 20

  function Cut(slug: string): string {
    if |slug| > SLUG_LIMIT then TrimDashes(slug[..SLUG_LIMIT]) else slug
  }

  /** A slug of more than 20 characters is cut there, and then loses its trailing dashes; others stay whole. */
  lemma {:induction false} CutIs(slug: string)
    ensures |slug| <= 20 ==> Cut(slug) == slug
    ensures |slug| > 20 ==> Cut(slug) <= slug[..20] && (Cut(slug) != "" ==> Cut(slug)[|Cut(slug)| - 1] != '-')
                            && forall i :: |Cut(slug)| <= i < 20 ==> slug[i] == '-'
  {
    if |slug| > 20 {
      TrimIs(slug[..20]);
    }
  }

  lemma {:induction false} TrimIs(s: string)
    ensures TrimDashes(s) <= s && (TrimDashes(s) != "" ==> TrimDashes(s)[|TrimDashes(s)| - 1] != '-')
    ensures forall i :: |TrimDashes(s)| <= i < |s| ==> s[i] == '-'
  {
    if s != "" && s[|s| - 1] == '-' {
      TrimIs(s[..|s| - 1]);
    }
  }

  function SlugOf(name: string, reg: Registry): string {
    if reg.key(name) in reg.slugs then reg.slugs[reg.key(name)]
    else
      var all := Fields(Normal(reg.lower(Outside(name, |name|).0)));
      if all == [] then "" else Cut(Join(Kept(all, reg), "-"))
  }

  method Slug(name: string, reg: Registry) returns (slug: string)
    ensures slug == SlugOf(name, reg)
  {
    if reg.key(name) in reg.slugs {
      return reg.slugs[reg.key(name)];
    }
    var stripped := StripParens(name);
    var all := Fields(Normal(reg.lower(stripped)));
    var tokens := all;
    while |tokens| > 0 && reg.lower(tokens[|tokens| - 1]) in reg.suffixes
      invariant Popped(tokens, reg) == Popped(all, reg)
      decreases |tokens|
    {
      tokens := tokens[..|tokens| - 1];
    }
    if |tokens| == 0 {
      tokens := all;
    }
    if |tokens| == 0 {
      return "";
    }
    slug := Join(tokens, "-");
    if |slug| > SLUG_LIMIT {
      slug := TrimDashes(slug[..SLUG_LIMIT]);
    }
  }

  lemma {:induction false} PoppedIsPrefix(tokens: seq<string>, reg: Registry)
    ensures Popped(tokens, reg) <= tokens
  {
    if tokens != [] && reg.lower(tokens[|tokens| - 1]) in reg.suffixes {
      PoppedIsPrefix(tokens[..|tokens| - 1], reg);
    }
  }

  lemma {:induction false} JoinIsSlug(q: seq<string>)
    requires SlugTokens(q)
    ensures SlugText(Join(q, "-"))
  {
    if q != [] {
      assert q[0] in q;
    }
    if |q| > 1 {
      assert forall t :: t in q[1..] ==> t in q;
      JoinIsSlug(q[1..]);
      assert SlugText("-" + Join(q[1..], "-"));
    }
  }

  lemma {:induction false} TrimIsPrefix(s: string)
    ensures TrimDashes(s) <= s
  {
    if s != "" && s[|s| - 1] == '-' {
      TrimIsPrefix(s[..|s| - 1]);
    }
  }

  /** A slug by the rules is short and within the slug alphabet, whatever the registry text is. */
  lemma {:induction false} SlugIsPortable(name: string, reg: Registry)
    requires reg.key(name) !in reg.slugs
    ensures SlugText(SlugOf(name, reg)) && |SlugOf(name, reg)| <= 20
  {
    var text := Normal(reg.lower(Outside(name, |name|).0));
    var all := Fields(text);
    FieldsAreSlugs(text);
    PoppedIsPrefix(all, reg);
    assert forall t :: t in Kept(all, reg) ==> t in all;
    JoinIsSlug(Kept(all, reg));
    var slug := Join(Kept(all, reg), "-");
    if |slug| > SLUG_LIMIT {
      TrimIsPrefix(slug[..SLUG_LIMIT]);
      assert forall i :: 0 <= i < |Cut(slug)| ==> Cut(slug)[i] == slug[i];
    }
  }

  // ---- The classifier ----

  datatype Confidence = High | Medium | Low

  datatype Placement = Placement(dir: string, pen: nat, vendor: string, confidence: Confidence)

  const NOWHERE := Placement("unsorted", 0, "", Low)

  /** strings.Split on a dot. */
  function Arcs(oid: string): (q: seq<string>)
    ensures q != []
    decreases |oid|
  {
    match IndexOf(oid, '.')
    case None => [oid]
    case Some(k) => [oid[..k]] + Arcs(oid[k + 1..])
  }

  /** slugFor without migration overrides. */
  function SlugFor(pen: nat, reg: Registry): (string, Confidence) {
    if pen !in reg.orgs then ("unknown", Medium)
    else
      var s := SlugOf(reg.orgs[pen], reg);
      if s != "" then (s, High) else ("unknown", Medium)
  }

  function InGroup(group: string): Placement {
    Placement("ietf/" + (if group == "" then "other" else group), 0, "", High)
  }

  /** Classify on a trimmed OID, with the group of the module name and whether that name is a valid one. */
  function Classify(oid: string, group: string, validName: bool, reg: Registry): Placement {
    if oid == "" then if validName then InGroup(group) else NOWHERE
    else
      var arcs := Arcs(oid);
      if ["1", "3", "6", "1", "4", "1"] <= arcs && |arcs| >= 7 then
        match ParsePen(arcs[6])
        case None => NOWHERE
        case Some(pen) =>
          var (slug, confidence) := SlugFor(pen, reg);
          Placement(VENDORS + BucketName(pen, slug), pen, slug, confidence)
      else if ["1", "3", "6", "1", "2", "1"] <= arcs then InGroup(group)
      else if ["1", "3", "6", "1", "6"] <= arcs then Placement("iana", 0, "", High)
      else if ["1", "3", "6", "1", "3"] <= arcs then Placement("experimental", 0, "", High)
      else NOWHERE
  }

  lemma {:induction false} SlugForIsName(pen: nat, reg: Registry)
    requires GoodTable(reg)
    ensures SlugFor(pen, reg).0 != "" && Lacks(SlugFor(pen, reg).0, '/')
  {
    if pen in reg.orgs && reg.key(reg.orgs[pen]) !in reg.slugs {
      SlugIsPortable(reg.orgs[pen], reg);
    }
  }

  /** The index tool reads the enterprise number and the slug back from every vendor path the classifier builds. */
  lemma {:induction false} VendorPathsReadBack(oid: string, group: string, validName: bool, reg: Registry, file: string)
    requires GoodTable(reg)
    ensures var c := Classify(oid, group, validName, reg);
            c.pen != 0 ==> PenFromPath(c.dir + ("/" + file)) == Some((c.pen, c.vendor))
                           && |Arcs(oid)| >= 7 && Arcs(oid)[6] == Dec(c.pen)
  {
    var c := Classify(oid, group, validName, reg);
    if c.pen != 0 {
      VendorPlacement(oid, group, validName, reg);
      SlugForIsName(c.pen, reg);
      ReadsBack(c.pen, c.vendor, file);
    }
  }

  lemma {:induction false} VendorPlacement(oid: string, group: string, validName: bool, reg: Registry)
    ensures var c := Classify(oid, group, validName, reg);
            c.pen != 0 ==> 0 < c.pen < PEN_LIMIT && c.vendor == SlugFor(c.pen, reg).0
                           && c.dir == VENDORS + BucketName(c.pen, c.vendor) && |Arcs(oid)| >= 7 && Arcs(oid)[6] == Dec(c.pen)
  {}

  lemma {:induction false} ReadsBack(pen: nat, slug: string, file: string)
    requires 0 < pen < PEN_LIMIT && slug != "" && Lacks(slug, '/')
    ensures PenFromPath((VENDORS + BucketName(pen, slug)) + ("/" + file)) == Some((pen, slug))
  {
    PenFromPathIff(FileIn(BucketName(pen, slug), file), pen, slug);
    assert (VENDORS + BucketName(pen, slug)) + ("/" + file) == FileIn(BucketName(pen, slug), file);
  }

  /** No other placement looks like a vendor path. */
  lemma {:induction false} OtherPathsAreNotVendors(oid: string, group: string, validName: bool, reg: Registry, file: string)
    ensures var c := Classify(oid, group, validName, reg);
            c.pen == 0 ==> PenFromPath(c.dir + ("/" + file)) == None
  {
    var c := Classify(oid, group, validName, reg);
    var path := c.dir + ("/" + file);
    if c.pen == 0 {
      assert path[0] == c.dir[0] && c.dir[0] != 'v';
      assert VENDORS[0] == 'v';
    }
  }

  // ---- The placement, read off the OID ----

  /** The OID is this one or lies below it. */
  predicate AtOrBelow(oid: string, root: string) {
    oid == root || root + "." <= oid
  }

  lemma {:induction false} ArcsSplit(oid: string, k: nat)
    requires IndexOf(oid, '.') == Some(k)
    ensures k < |oid| && Lacks(oid[..k], '.') && oid == oid[..k] + ("." + oid[k + 1..])
    ensures Arcs(oid) == [oid[..k]] + Arcs(oid[k + 1..])
  {}

  lemma {:induction false} BeginCons(q: seq<string>, head: string, tail: seq<string>)
    requires q != []
    ensures q <= [head] + tail <==> q[0] == head && q[1..] <= tail
  {
    assert q == [q[0]] + q[1..];
    if q[0] == head && q[1..] <= tail {
      assert [head] + tail == q + tail[|q| - 1..];
    }
    if q <= [head] + tail {
      assert ([head] + tail)[..|q|] == q && ([head] + tail)[1..|q|] == tail[..|q| - 1];
    }
  }

  /** The first arcs of an OID are these exactly when it is the OID of these arcs or lies below it. */
  lemma {:induction false} ArcsBegin(oid: string, q: seq<string>)
    requires q != [] && forall a :: a in q ==> Lacks(a, '.')
    ensures q <= Arcs(oid) <==> AtOrBelow(oid, Join(q, "."))
    decreases |q|
  {
    var a, more := q[0], q[1..];
    assert q == [a] + more && a in q;
    if more == [] {
      FirstArc(oid, a);
    } else {
      assert forall x :: x in more ==> x in q;
      JoinCons(a, more);
      if IndexOf(oid, '.').Some? {
        var k := IndexOf(oid, '.').value;
        ArcsBegin(oid[k + 1..], more);
        ArcsSplit(oid, k);
        BeginCons(q, oid[..k], Arcs(oid[k + 1..]));
        BelowFirst(oid[..k], oid[k + 1..], a, Join(more, "."));
      } else {
        DotInside(oid, a, Join(more, "."));
        assert |Arcs(oid)| == 1;
      }
    }
  }

  lemma {:induction false} FirstArc(oid: string, a: string)
    requires Lacks(a, '.')
    ensures [a] <= Arcs(oid) <==> AtOrBelow(oid, a)
  {
    if IndexOf(oid, '.').Some? {
      var k := IndexOf(oid, '.').value;
      ArcsSplit(oid, k);
      BeginCons([a], oid[..k], Arcs(oid[k + 1..]));
      HeadOf(oid[..k], oid[k + 1..], a);
    } else {
      assert Arcs(oid) == [oid] && (a + ".")[|a|] == '.';
      assert [a] <= [oid] <==> a == oid by {
        assert [a] <= [oid] ==> [a][0] == [oid][0];
      }
    }
  }

  lemma {:induction false} HeadOf(head: string, rest: string, a: string)
    requires Lacks(a, '.') && Lacks(head, '.')
    ensures AtOrBelow(head + ("." + rest), a) <==> head == a
  {
    var oid := head + ("." + rest);
    assert oid[|head|] == '.' && oid == (head + ".") + rest;
    if a + "." <= oid {
      assert (a + ".")[|a|] == '.' && oid[|a|] == '.';
      assert forall j :: 0 <= j < |a| ==> oid[j] == (a + ".")[j] == a[j];
      assert forall j :: 0 <= j < |head| ==> oid[j] == head[j];
      assert |a| == |head|;
      assert a == oid[..|a|];
    }
  }

  lemma {:induction false} DotInside(oid: string, a: string, tail: string)
    requires Lacks(oid, '.')
    ensures !AtOrBelow(oid, a + ("." + tail))
  {
    var root := a + ("." + tail);
    assert root[|a|] == '.' && (root + ".")[|a|] == '.';
  }

  lemma {:induction false} BelowFirst(head: string, rest: string, a: string, tail: string)
    requires Lacks(head, '.') && Lacks(a, '.')
    ensures AtOrBelow(head + ("." + rest), a + ("." + tail)) <==> head == a && AtOrBelow(rest, tail)
  {
    var oid, root := head + ("." + rest), a + ("." + tail);
    assert oid[|head|] == '.' && root[|a|] == '.';
    assert oid[|head| + 1..] == rest && root[|a| + 1..] == tail && oid[..|head|] == head && root[..|a|] == a;
    if AtOrBelow(oid, root) {
      assert forall j :: 0 <= j < |root| ==> oid[j] == root[j];
      assert |a| == |head|;
      assert a == head;
      if root + "." <= oid {
        assert (root + ".")[|a| + 1..] == tail + ".";
        assert tail + "." <= rest;
      }
    }
    if head == a && tail + "." <= rest {
      assert root + "." == a + ("." + (tail + "."));
    }
  }

  /** The OID begins with these arcs. */
  predicate Under(oid: string, q: seq<string>) {
    AtOrBelow(oid, Join(q, "."))
  }

  /** The placement of an OID that lies below the vendors' root, the standards', the IANA's or the experiments'. */
  predicate PlacedAs(c: Placement, group: string, vendors: bool, standards: bool, iana: bool, experiments: bool) {
    if c.pen != 0 then vendors
    else if standards then c == Placement("ietf/" + (if group == "" then "other" else group), 0, "", High)
    else if iana then c == Placement("iana", 0, "", High)
    else if experiments then c == Placement("experimental", 0, "", High)
    else c == Placement("unsorted", 0, "", Low)
  }

  /** Which directory a module goes to, read off its dotted OID. */
  lemma {:induction false} ClassifyReads(oid: string, group: string, validName: bool, reg: Registry)
    requires oid != ""
    ensures PlacedAs(Classify(oid, group, validName, reg), group, Under(oid, ["1", "3", "6", "1", "4", "1"]),
                     Under(oid, ["1", "3", "6", "1", "2", "1"]), Under(oid, ["1", "3", "6", "1", "6"]),
                     Under(oid, ["1", "3", "6", "1", "3"]))
  {
    UnderIs(oid, ["1", "3", "6", "1", "4", "1"]);
    UnderIs(oid, ["1", "3", "6", "1", "2", "1"]);
    UnderIs(oid, ["1", "3", "6", "1", "6"]);
    UnderIs(oid, ["1", "3", "6", "1", "3"]);
    ClassifyByArcs(oid, group, validName, reg);
  }

  lemma {:induction false} ClassifyByArcs(oid: string, group: string, validName: bool, reg: Registry)
    requires oid != ""
    ensures var arcs := Arcs(oid);
            PlacedAs(Classify(oid, group, validName, reg), group, ["1", "3", "6", "1", "4", "1"] <= arcs,
                     ["1", "3", "6", "1", "2", "1"] <= arcs, ["1", "3", "6", "1", "6"] <= arcs,
                     ["1", "3", "6", "1", "3"] <= arcs)
  {
    if ["1", "3", "6", "1", "4", "1"] <= Arcs(oid) {
      OneFifthArc(Arcs(oid));
    }
  }

  lemma {:induction false} UnderIs(oid: string, q: seq<string>)
    requires q != [] && forall a :: a in q ==> Lacks(a, '.')
    ensures Under(oid, q) <==> q <= Arcs(oid)
  {
    ArcsBegin(oid, q);
  }

  lemma {:induction false} OneFifthArc(arcs: seq<string>)
    requires ["1", "3", "6", "1", "4", "1"] <= arcs
    ensures !(["1", "3", "6", "1", "2", "1"] <= arcs) && !(["1", "3", "6", "1", "6"] <= arcs)
    ensures !(["1", "3", "6", "1", "3"] <= arcs)
  {
    assert arcs[4] == "4" && "4"[0] != "2"[0] && "4"[0] != "6"[0] && "4"[0] != "3"[0];
  }

  lemma {:induction false} JoinCons(a: string, q: seq<string>)
    requires q != []
    ensures Join([a] + q, ".") == a + ("." + Join(q, "."))
  {
    assert ([a] + q)[1..] == q;
  }
}
