/** The job-name sanitiser of the bucket-arrival handler.

    A Batch job name is derived from an S3 object key in two steps: every
    maximal run of characters outside [A-Za-z0-9_-] is replaced by a single
    underscore, and the result is cut to its first 127 characters. Strings are
    sequences of Unicode scalar values, as Python `str` slicing counts them.
 */
module JobNames {

  /** The longest job name the handler ever produces. */
  const MaxJobNameLength: nat := 127

  /** The character that stands in for a run of disallowed characters. */
  const Underscore: char := '_'

  /** Membership in the character class [A-Za-z0-9_-]. */
  predicate Allowed(c: char) {
    ('a' <= c <= 'z') || ('A' <= c <= 'Z') || ('0' <= c <= '9') || c == '_' || c == '-'
  }

  predicate AllAllowed(s: string) {
    forall i :: 0 <= i < |s| ==> Allowed(s[i])
  }

  predicate AllDisallowed(s: string) {
    forall i :: 0 <= i < |s| ==> !Allowed(s[i])
  }

  /** Length of the maximal run of disallowed characters that starts `s`. */
  function RunLength(s: string): (n: nat)
    ensures n <= |s|
    ensures forall i :: 0 <= i < n ==> !Allowed(s[i])
    ensures n < |s| ==> Allowed(s[n])
  {
    if s == [] || Allowed(s[0]) then 0 else 1 + RunLength(s[1..])
  }

  /** Replaces each maximal run of disallowed characters by one underscore,
      walking the key run by run. */
  function Collapse(s: string): (r: string)
    ensures |r| <= |s|
    ensures AllAllowed(r)
    ensures r == [] <==> s == []
    decreases |s|
  {
    if s == [] then []
    else if Allowed(s[0]) then [s[0]] + Collapse(s[1..])
    else [Underscore] + Collapse(s[RunLength(s)..])
  }

  /** Python's `s[:limit]`: the longest prefix of `s` of length at most `limit`. */
  function Truncate(s: string, limit: nat): (r: string)
    ensures |r| == if |s| <= limit then |s| else limit
    ensures r <= s
  {
    if |s| <= limit then s else s[..limit]
  }

  /** The job name the handler submits for an object key. */
  function JobName(key: string): (name: string)
    ensures |name| <= MaxJobNameLength
    ensures |name| <= |key|
    ensures AllAllowed(name)
    ensures name == [] <==> key == []
  {
    Truncate(Collapse(key), MaxJobNameLength)
  }

  // ---------------------------------------------------------------------------
  // Fixed points and idempotence
  // ---------------------------------------------------------------------------

  /** A key is left untouched by the run-collapsing step exactly when every
      character of it is in the allowed class. */
  lemma {:induction false} CollapseFixedIff(s: string)
    ensures Collapse(s) == s <==> AllAllowed(s)
    decreases |s|
  {
    if s == [] {
    } else if Allowed(s[0]) {
      CollapseFixedIff(s[1..]);
      assert s == [s[0]] + s[1..];
      if AllAllowed(s) {
        assert AllAllowed(s[1..]) by {
          forall i | 0 <= i < |s[1..]| ensures Allowed(s[1..][i]) {
            assert s[1..][i] == s[i + 1];
          }
        }
      }
      if Collapse(s) == s {
        assert Collapse(s[1..]) == s[1..];
      }
    } else {
      assert Collapse(s)[0] == Underscore;
    }
  }

  /** A key made only of allowed characters becomes its own 127-character
      prefix: the whole key when it is short enough. */
  lemma JobNameOfAllowedKey(key: string)
    requires AllAllowed(key)
    ensures JobName(key) == if |key| <= MaxJobNameLength then key else key[..MaxJobNameLength]
  {
    CollapseFixedIff(key);
  }

  /** Deriving a job name from a job name changes nothing. */
  lemma JobNameIdempotent(key: string)
    ensures JobName(JobName(key)) == JobName(key)
  {
    JobNameOfAllowedKey(JobName(key));
  }

  // ---------------------------------------------------------------------------
  // Run collapsing
  // ---------------------------------------------------------------------------

  /** True when `a` ends and `b` starts with a disallowed character, so that
      the two runs meet at the seam of `a + b`. */
  predicate RunsMeet(a: string, b: string) {
    a != [] && b != [] && !Allowed(a[|a| - 1]) && !Allowed(b[0])
  }

  /** Collapsing distributes over concatenation, except that two runs of
      disallowed characters meeting at the seam merge into one underscore. */
  lemma CollapseAppend(a: string, b: string)
    ensures !RunsMeet(a, b) ==> Collapse(a + b) == Collapse(a) + Collapse(b)
    ensures RunsMeet(a, b) ==> Collapse(a + b) == Collapse(a) + Collapse(b)[1..]
  {
    ScanMatchesCollapse(a + b);
    ScanMatchesCollapse(a);
    ScanMatchesCollapse(b);
    ScanAppend(a, b, false);
    if b != [] && !Allowed(b[0]) {
      assert Scan(b, false) == [Underscore] + Scan(b[1..], true);
    }
  }

  /** A non-empty key of disallowed characters only collapses to one underscore. */
  lemma CollapseOfRun(d: string)
    requires d != [] && AllDisallowed(d)
    ensures Collapse(d) == [Underscore]
  {
  }

  /** Each maximal run of disallowed characters becomes exactly one
      underscore, and the text on both sides is collapsed independently. */
  lemma CollapseMaximalRun(x: string, d: string, y: string)
    requires d != [] && AllDisallowed(d)
    requires x == [] || Allowed(x[|x| - 1])
    requires y == [] || Allowed(y[0])
    ensures Collapse(x + d + y) == Collapse(x) + [Underscore] + Collapse(y)
  {
    CollapseOfRun(d);
    CollapseAppend(x, d);
    CollapseAppend(x + d, y);
  }

  /** The collapsed form of a key is a prefix of the collapsed form of any
      extension of that key, and likewise for the job name. */
  lemma JobNamePrefixMonotone(a: string, b: string)
    ensures Collapse(a) <= Collapse(a + b)
    ensures JobName(a) <= JobName(a + b)
  {
    CollapseAppend(a, b);
  }

  // ---------------------------------------------------------------------------
  // Allowed characters keep their order
  // ---------------------------------------------------------------------------

  /** Characters that the sanitiser never produces on its own: allowed ones
      other than the underscore. */
  predicate Significant(c: char) {
    Allowed(c) && c != Underscore
  }

  /** The significant characters of `s`, in order. */
  function Kept(s: string): string {
    if s == [] then []
    else (if Significant(s[0]) then [s[0]] else []) + Kept(s[1..])
  }

  /** Skipping disallowed characters skips nothing significant. */
  lemma {:induction false} KeptSkipsDisallowed(s: string, n: nat)
    requires n <= |s|
    requires forall i :: 0 <= i < n ==> !Allowed(s[i])
    ensures Kept(s) == Kept(s[n..])
    decreases n
  {
    if n > 0 {
      KeptSkipsDisallowed(s[1..], n - 1);
      assert s[1..][n - 1..] == s[n..];
    }
  }

  /** Letters, digits and hyphens of the key survive collapsing, in order,
      with none added and none lost. */
  lemma {:induction false} CollapseKeepsSignificant(s: string)
    ensures Kept(Collapse(s)) == Kept(s)
    decreases |s|
  {
    if s == [] {
    } else if Allowed(s[0]) {
      CollapseKeepsSignificant(s[1..]);
      var r := Collapse(s);
      assert r[1..] == Collapse(s[1..]);
    } else {
      var n := RunLength(s);
      CollapseKeepsSignificant(s[n..]);
      KeptSkipsDisallowed(s, n);
      var r := Collapse(s);
      assert r[1..] == Collapse(s[n..]);
    }
  }

  // ---------------------------------------------------------------------------
  // A character-by-character reading and a single-pass loop
  // ---------------------------------------------------------------------------

  /** The same transformation read one character at a time: `inRun` records
      that the previous character was disallowed and its underscore is out. */
  function Scan(s: string, inRun: bool): string {
    if s == [] then []
    else if Allowed(s[0]) then [s[0]] + Scan(s[1..], false)
    else if inRun then Scan(s[1..], true)
    else [Underscore] + Scan(s[1..], true)
  }

  /** The character-at-a-time reading agrees with the run-by-run definition. */
  lemma {:induction false} ScanMatchesCollapse(s: string)
    ensures Scan(s, false) == Collapse(s)
    ensures Scan(s, true) == Collapse(s[RunLength(s)..])
    decreases |s|
  {
    if s == [] {
    } else if Allowed(s[0]) {
      ScanMatchesCollapse(s[1..]);
    } else {
      ScanMatchesCollapse(s[1..]);
      assert s[1..][RunLength(s[1..])..] == s[RunLength(s)..];
    }
  }

  /** Whether a disallowed run is open after reading `a` from state `inRun`. */
  function EndState(a: string, inRun: bool): bool {
    if a == [] then inRun else !Allowed(a[|a| - 1])
  }

  /** Reading `a + b` is reading `a`, then reading `b` from the state `a`
      ends in. */
  lemma {:induction false} ScanAppend(a: string, b: string, inRun: bool)
    ensures Scan(a + b, inRun) == Scan(a, inRun) + Scan(b, EndState(a, inRun))
    decreases |a|
  {
    if a == [] {
      assert a + b == b;
    } else {
      var rest, st := a[1..], !Allowed(a[0]);
      assert (a + b)[0] == a[0];
      assert (a + b)[1..] == rest + b;
      ScanAppend(rest, b, st);
      assert EndState(rest, st) == EndState(a, inRun) by {
        if |a| > 1 {
          assert rest[|rest| - 1] == a[|a| - 1];
        }
      }
      if !st {
        assert Scan(a + b, inRun) == [a[0]] + Scan(rest + b, st);
        assert Scan(a, inRun) == [a[0]] + Scan(rest, st);
      } else if inRun {
        assert Scan(a + b, inRun) == Scan(rest + b, st);
      } else {
        assert Scan(a + b, inRun) == [Underscore] + Scan(rest + b, st);
        assert Scan(a, inRun) == [Underscore] + Scan(rest, st);
      }
    }
  }

  /** A single pass over the key that emits one underscore at the start of
      each disallowed run, then truncates. */
  method SanitizeJobName(key: string) returns (name: string)
    ensures name == JobName(key)
  {
    ScanMatchesCollapse(key);
    var out: string := [];
    var inRun := false;
    var i := 0;
    while i < |key|
      invariant 0 <= i <= |key|
      invariant out + Scan(key[i..], inRun) == Collapse(key)
    {
      var c := key[i];
      assert key[i..][1..] == key[i + 1..];
      if Allowed(c) {
        out := out + [c];
        inRun := false;
      } else if !inRun {
        out := out + [Underscore];
        inRun := true;
      }
      i := i + 1;
    }
    if |out| <= MaxJobNameLength {
      name := out;
    } else {
      name := out[..MaxJobNameLength];
    }
  }

  // ---------------------------------------------------------------------------
  // Worked examples
  // ---------------------------------------------------------------------------

  /** A word of allowed characters followed by a run is kept, and the run
      becomes one underscore. */
  lemma CollapseWordThenRun(w: string, d: string, y: string)
    requires w != [] && AllAllowed(w)
    requires d != [] && AllDisallowed(d)
    requires y == [] || Allowed(y[0])
    ensures Collapse(w + d + y) == w + [Underscore] + Collapse(y)
  {
    CollapseMaximalRun(w, d, y);
    CollapseFixedIff(w);
  }

  /** Slashes and spaces each collapse to one underscore; so does the dot. */
  lemma ExampleSlashesAndSpaces()
    ensures JobName("a//b  c.txt") == "a_b_c_txt"
  {
    var key: string := "a//b  c.txt";
    var c: string, b: string, name: string := "c.txt", "b  c.txt", "a_b_c_txt";
    assert key == "a" + "//" + b && b == "b" + "  " + c && c == "c" + "." + "txt";
    assert name == "a" + [Underscore] + ("b" + [Underscore] + ("c" + [Underscore] + "txt"));
    assert AllAllowed("a") && AllAllowed("b") && AllAllowed("c") && AllAllowed("txt");
    assert AllDisallowed("//") && AllDisallowed("  ") && AllDisallowed(".");
    assert Allowed(b[0]) && Allowed(c[0]);
    CollapseFixedIff("txt");
    CollapseWordThenRun("c", ".", "txt");
    CollapseWordThenRun("b", "  ", c);
    CollapseWordThenRun("a", "//", b);
    assert Collapse(key) == name;
  }

  /** A CSV upload under `reports/`: a slash, a space and a dot, each
      becoming one underscore. */
  lemma ExampleReportsKey()
    ensures JobName("reports/jan 2024.csv") == "reports_jan_2024_csv"
  {
    var key: string := "reports/jan 2024.csv";
    var c: string, b: string, a: string := "2024.csv", "jan 2024.csv", "reports_jan_2024_csv";
    assert key == "reports" + "/" + b && b == "jan" + " " + c && c == "2024" + "." + "csv";
    assert a == "reports" + [Underscore] + ("jan" + [Underscore] + ("2024" + [Underscore] + "csv"));
    assert AllAllowed("reports") && AllAllowed("jan") && AllAllowed("2024") && AllAllowed("csv");
    assert AllDisallowed("/") && AllDisallowed(" ") && AllDisallowed(".");
    assert Allowed(b[0]) && Allowed(c[0]);
    CollapseFixedIff("csv");
    CollapseWordThenRun("2024", ".", "csv");
    CollapseWordThenRun("jan", " ", c);
    CollapseWordThenRun("reports", "/", b);
    assert Collapse(key) == a;
  }
}
