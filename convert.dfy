/** The naming rules of `function/convert.py`: how `upload_song` chooses a
    file name that does not collide with the files already uploaded, and
    the `.mp3` filter of `get_songs`. The upload directory is modelled by
    the set (or, for listing, the sequence) of names it holds; the file
    copy and the HTTP layer are not modelled. */
module Convert {

  const MP3: string := ".mp3"

  /** `s.endswith(suffix)`. */
  predicate EndsWith(s: string, suffix: string) {
    |suffix| <= |s| && s[|s| - |suffix|..] == suffix
  }

  /** The name before collision handling: the uploaded name if it ends in
      ".mp3", otherwise the name with ".mp3" appended. */
  function InitialName(uploaded: string): (name: string)
    ensures EndsWith(name, MP3)
    ensures EndsWith(uploaded, MP3) ==> name == uploaded
    ensures !EndsWith(uploaded, MP3) ==> name == uploaded + MP3
  {
    if EndsWith(uploaded, MP3) then uploaded else
      var name := uploaded + MP3;
      assert name[|name| - |MP3|..] == MP3;
      name
  }

  // ---------------------------------------------------------------------
  // os.path.splitext

  /** The index of the last `c` in `s`, or -1. */
  function LastIndexOf(s: string, c: char): (r: int)
    ensures -1 <= r < |s|
    ensures r >= 0 ==> s[r] == c
  {
    if s == [] then -1
    else if s[|s| - 1] == c then |s| - 1
    else LastIndexOf(s[..|s| - 1], c)
  }

  /** The path component starts with dots only up to `dot`. */
  predicate OnlyDotsBetween(s: string, from: int, dot: int)
    requires 0 <= from <= dot <= |s|
  {
    forall j :: from <= j < dot ==> s[j] == '.'
  }

  /** `posixpath.splitext`: the extension starts at the last dot of the
      last path component, unless everything before that dot in the
      component is a dot (a leading-dot name has no extension). */
  function SplitExt(p: string): (r: (string, string))
    ensures r.0 + r.1 == p
  {
    var sep := LastIndexOf(p, '/');
    var dot := LastIndexOf(p, '.');
    if dot > sep && !OnlyDotsBetween(p, sep + 1, dot) then
      assert p[..dot] + p[dot..] == p;
      (p[..dot], p[dot..])
    else
      assert p + [] == p;
      (p, [])
  }

  /** A stem whose file part has a non-dot at `j`, followed by an
      extension made of one dot and no further dot or '/', splits into the
      two. */
  lemma SplitExtOfExtension(stem: string, ext: string, j: nat)
    requires |ext| > 0 && ext[0] == '.' && '.' !in ext[1..] && '/' !in ext
    requires LastIndexOf(stem, '/') < j < |stem| && stem[j] != '.'
    ensures SplitExt(stem + ext) == (stem, ext)
  {
    DotOfExtension(stem, ext);
    AppendWithout(stem, ext, '/');
    var p := stem + ext;
    assert p[j] == stem[j];
    assert p[..|stem|] == stem && p[|stem|..] == ext;
  }

  lemma DotOfExtension(stem: string, ext: string)
    requires |ext| > 0 && ext[0] == '.' && '.' !in ext[1..]
    ensures LastIndexOf(stem + ext, '.') == |stem|
  {
    var withDot := stem + [ext[0]];
    assert stem + ext == withDot + ext[1..];
    AppendWithout(withDot, ext[1..], '.');
  }

  lemma {:induction false} LastIndexPin(p: string, i: nat, c: char)
    requires i < |p| && p[i] == c && forall j :: i < j < |p| ==> p[j] != c
    ensures LastIndexOf(p, c) == i
  {
    if i < |p| - 1 {
      var init := p[..|p| - 1];
      assert init[i] == c;
      LastIndexPin(init, i, c);
    }
  }

  lemma {:induction false} AppendWithout(s: string, t: string, c: char)
    requires c !in t
    ensures LastIndexOf(s + t, c) == LastIndexOf(s, c)
  {
    if t != [] {
      var init := t[..|t| - 1];
      assert t == init + [t[|t| - 1]];
      assert (s + t)[..|s + t| - 1] == s + init;
      AppendWithout(s, init, c);
    } else {
      assert s + t == s;
    }
  }

  // ---------------------------------------------------------------------
  // Decimal numerals

  function DigitChar(d: nat): char
    requires d < 10
  {
    "0123456789"[d]
  }

  /** `str(n)` for a natural number. */
  function NatToString(n: nat): (r: string)
    ensures |r| >= 1
  {
    if n < 10 then [DigitChar(n)] else NatToString(n / 10) + [DigitChar(n % 10)]
  }

  lemma DigitCharInjective(a: nat, b: nat)
    requires a < 10 && b < 10 && DigitChar(a) == DigitChar(b)
    ensures a == b
  {
  }

  /** Different numbers have different numerals. */
  lemma {:induction false} NatToStringInjective(m: nat, n: nat)
    requires NatToString(m) == NatToString(n)
    ensures m == n
  {
    var sm, sn := NatToString(m), NatToString(n);
    if m < 10 && n < 10 {
      DigitCharInjective(m, n);
    } else if m >= 10 && n >= 10 {
      assert sm[..|sm| - 1] == NatToString(m / 10);
      assert sn[..|sn| - 1] == NatToString(n / 10);
      NatToStringInjective(m / 10, n / 10);
      DigitCharInjective(m % 10, n % 10);
    }
  }

  // ---------------------------------------------------------------------
  // Upload naming

  /** `f"{base_name}_{counter}{ext}"`. */
  function Candidate(base: string, k: nat, ext: string): string {
    base + "_" + NatToString(k) + ext
  }

  /** Candidates for different counters differ, and none is the plain
      `base + ext`. */
  lemma CandidatesDistinct(base: string, ext: string, j: nat, k: nat)
    ensures Candidate(base, j, ext) == Candidate(base, k, ext) ==> j == k
    ensures Candidate(base, k, ext) != base + ext
  {
    var cj, ck := Candidate(base, j, ext), Candidate(base, k, ext);
    assert |Candidate(base, k, ext)| > |base + ext|;
    if cj == ck {
      var sj, sk := NatToString(j), NatToString(k);
      assert |sj| == |sk|;
      var lo := |base| + 1;
      assert cj[lo..lo + |sj|] == sj;
      assert ck[lo..lo + |sk|] == sk;
      NatToStringInjective(j, k);
    }
  }

  /** The name `upload_song` stores under: the initial name if it is free,
      otherwise `base_k.ext` for the least `k >= 1` that is free. The
      counter never passes the number of existing names, so the loop
      ends. */
  method UploadName(uploaded: string, existing: set<string>) returns (filename: string)
    ensures filename !in existing
    ensures InitialName(uploaded) !in existing ==> filename == InitialName(uploaded)
    ensures InitialName(uploaded) in existing ==>
              var (base, ext) := SplitExt(InitialName(uploaded));
              exists k :: 1 <= k <= |existing| && filename == Candidate(base, k, ext) &&
                          forall j :: 1 <= j < k ==> Candidate(base, j, ext) in existing
  {
    filename := InitialName(uploaded);
    var counter := 1;
    var (baseName, ext) := SplitExt(filename);
    ghost var tried: set<string> := {};
    while filename in existing
      invariant counter >= 1
      invariant tried <= existing && |tried| == counter - 1
      invariant counter == 1 ==> filename == InitialName(uploaded)
      invariant counter > 1 ==> filename == Candidate(baseName, counter - 1, ext) && InitialName(uploaded) in existing
      invariant counter > 1 ==> forall j :: 1 <= j < counter - 1 ==> Candidate(baseName, j, ext) in existing
      invariant forall x :: x in tried ==> x == InitialName(uploaded) || exists j :: 1 <= j < counter - 1 && x == Candidate(baseName, j, ext)
      decreases |existing| - |tried|
    {
      if counter > 1 {
        CandidatesDistinct(baseName, ext, counter - 1, counter - 1);
        forall j | 1 <= j < counter - 1
          ensures Candidate(baseName, j, ext) != filename
        {
          CandidatesDistinct(baseName, ext, j, counter - 1);
        }
      }
      assert filename !in tried;
      tried := tried + {filename};
      assert |tried| <= |existing| by {
        SubsetCard(tried, existing);
      }
      filename := Candidate(baseName, counter, ext);
      counter := counter + 1;
    }
    if counter > 1 {
      assert counter - 1 <= |existing| by {
        SubsetCard(tried, existing);
      }
    }
  }

  lemma SubsetCard<T>(a: set<T>, b: set<T>)
    requires a <= b
    ensures |a| <= |b|
  {
    assert b == a + (b - a);
  }

  /** A stored ".mp3" name whose file part has a non-dot at `j` splits off
      exactly ".mp3", so its candidates are `stem_1.mp3`, `stem_2.mp3`, and
      so on. */
  lemma CandidatesOfMp3Name(stem: string, j: nat, k: nat)
    requires LastIndexOf(stem, '/') < j < |stem| && stem[j] != '.'
    ensures SplitExt(stem + MP3) == (stem, MP3)
    ensures var (base, ext) := SplitExt(stem + MP3);
            Candidate(base, k, ext) == stem + "_" + NatToString(k) + MP3
  {
    assert MP3[1..] == "mp3";
    SplitExtOfExtension(stem, MP3, j);
  }

  // ---------------------------------------------------------------------
  // Song listing

  datatype Song = Song(title: string, artist: string, difficulty: string, filename: string)

  /** `get_songs`: the ".mp3" entries of the listing, in listing order. */
  function GetSongs(listing: seq<string>): seq<Song> {
    if listing == [] then []
    else
      var rest := GetSongs(listing[..|listing| - 1]);
      var f := listing[|listing| - 1];
      if EndsWith(f, MP3) then rest + [Song(f, "Unknown", "Custom", f)] else rest
  }

  /** Listing order is kept: the songs of two listings one after the
      other are the songs of the first followed by those of the second. */
  lemma {:induction false} GetSongsAppend(a: seq<string>, b: seq<string>)
    ensures GetSongs(a + b) == GetSongs(a) + GetSongs(b)
  {
    if b == [] {
      assert a + b == a;
    } else {
      var init := b[..|b| - 1];
      assert (a + b)[..|a + b| - 1] == a + init;
      assert (a + b)[|a + b| - 1] == b[|b| - 1];
      GetSongsAppend(a, init);
    }
  }

  /** Exactly the ".mp3" entries become songs, each titled by its file
      name, by artist "Unknown" and of difficulty "Custom". */
  lemma {:induction false} GetSongsExact(listing: seq<string>)
    ensures forall s :: s in GetSongs(listing) ==>
              s.filename in listing && EndsWith(s.filename, MP3) && s == Song(s.filename, "Unknown", "Custom", s.filename)
    ensures forall f :: f in listing && EndsWith(f, MP3) ==> Song(f, "Unknown", "Custom", f) in GetSongs(listing)
  {
    if listing != [] {
      var init := listing[..|listing| - 1];
      GetSongsExact(init);
      assert listing == init + [listing[|listing| - 1]];
    }
  }
}
