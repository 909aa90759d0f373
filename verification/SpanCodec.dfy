/** Spans are written relative to their source file and read back in a session whose source map
    may hold the file at another offset. */
module SpanCodec {
  import opened Options

  type Path = seq<string>

  datatype RealName = LocalPath(path: Path) | Remapped(local: Option<Path>, virtualName: Path)

  datatype FileName = Real(realName: RealName) | Virtual(id: nat)

  /** A loaded file; `crate` is the stable identity of the crate it belongs to. */
  datatype SourceFile = SourceFile(crate: nat, name: FileName, start: nat, len: nat)

  type SourceMap = seq<SourceFile>

  datatype SpanData = SpanData(lo: nat, hi: nat, context: nat, parent: Option<nat>)

  const ROOT_CONTEXT := 0
  const TAG_PARTIAL_SPAN := 0
  const TAG_VALID_SPAN_FULL := 1
  const DUMMY := SpanData(0, 0, ROOT_CONTEXT, None)

  datatype Token = Tag(tag: nat) | Crate(crate: nat) | Name(name: FileName) | Pos(pos: nat)

  predicate IsDummy(s: SpanData) {
    s.lo == 0 && s.hi == 0
  }

  /** Both ends of a file belong to it. */
  predicate InFile(f: SourceFile, pos: nat) {
    f.start <= pos <= f.start + f.len
  }

  /** Files are laid out one after the other, the first at 0. */
  predicate WellFormedMap(m: SourceMap) {
    && m != [] && m[0].start == 0
    && forall i, j | 0 <= i < j < |m| :: m[i].start + m[i].len < m[j].start
  }

  /** `lookup_source_file`: the last file starting at or before the position. */
  function LookupFile(m: SourceMap, pos: nat): (k: nat)
    requires WellFormedMap(m)
    ensures k < |m| && m[k].start <= pos
    ensures forall j | k < j < |m| :: pos < m[j].start
  {
    LookupUpTo(m, pos, |m|)
  }

  function LookupUpTo(m: SourceMap, pos: nat, n: nat): (k: nat)
    requires WellFormedMap(m) && 0 < n <= |m|
    ensures k < n && m[k].start <= pos
    ensures forall j | k < j < n :: pos < m[j].start
  {
    if m[n - 1].start <= pos || n == 1 then n - 1 else LookupUpTo(m, pos, n - 1)
  }

  /** Local paths do not leave the machine. */
  function WithoutLocalPath(name: FileName): FileName {
    match name
    case Real(Remapped(_, v)) => Real(Remapped(None, v))
    case _ => name
  }

  function PathOf(r: RealName): Path {
    match r
    case LocalPath(p) => p
    case Remapped(_, v) => v
  }

  /** `Path::ends_with`, by components. */
  predicate EndsWith(p: Path, suffix: Path) {
    |suffix| <= |p| && p[|p| - |suffix|..] == suffix
  }

  predicate Matches(f: SourceFile, crate: nat, name: FileName) {
    f.crate == crate &&
    (name == f.name || (name.Real? && f.name.Real? && EndsWith(PathOf(f.name.realName), PathOf(name.realName))))
  }

  /** The span can be written in full: it is real and ends in the file it starts in. */
  predicate Encodable(m: SourceMap, s: SpanData)
    requires WellFormedMap(m)
  {
    !IsDummy(s) && InFile(m[LookupFile(m, s.lo)], s.hi)
  }

  function Encoded(m: SourceMap, s: SpanData): seq<Token>
    requires WellFormedMap(m) && s.lo <= s.hi
  {
    if !Encodable(m, s) then [Tag(TAG_PARTIAL_SPAN)]
    else
      var f := m[LookupFile(m, s.lo)];
      [Tag(TAG_VALID_SPAN_FULL), Crate(f.crate), Name(WithoutLocalPath(f.name)), Pos(s.lo - f.start), Pos(s.hi - s.lo)]
  }

  class SpanEncoder {
    var out: seq<Token>

    constructor ()
      ensures out == []
    {
      out := [];
    }

    method Emit(t: Token)
      modifies this
      ensures out == old(out) + [t]
    {
      out := out + [t];
    }

    method EncodeSpan(m: SourceMap, s: SpanData)
      requires WellFormedMap(m) && s.lo <= s.hi
      modifies this
      ensures out == old(out) + Encoded(m, s)
    {
      if IsDummy(s) {
        Emit(Tag(TAG_PARTIAL_SPAN));
        return;
      }
      var f := m[LookupFile(m, s.lo)];
      if !InFile(f, s.hi) {
        Emit(Tag(TAG_PARTIAL_SPAN));
        return;
      }
      Emit(Tag(TAG_VALID_SPAN_FULL));
      Emit(Crate(f.crate));
      Emit(Name(WithoutLocalPath(f.name)));
      Emit(Pos(s.lo - f.start));
      Emit(Pos(s.hi - s.lo));
    }
  }

  ghost predicate OnlyMatch(m: SourceMap, crate: nat, name: FileName, k: nat) {
    && k < |m| && Matches(m[k], crate, name)
    && forall j | 0 <= j < |m| && j != k :: !Matches(m[j], crate, name)
  }

  /** The one matching file, if there is exactly one. */
  ghost function TheFile(m: SourceMap, crate: nat, name: FileName): Option<SourceFile> {
    if exists k: nat :: OnlyMatch(m, crate, name, k) then
      var k: nat :| OnlyMatch(m, crate, name, k);
      Some(m[k])
    else None
  }

  /** The files on disk, by local path, with their lengths. */
  type Disk = Path -> Option<nat>

  const LOCAL_CRATE := 0

  /** `load_file`: a file from disk is placed behind all others. */
  function Loaded(m: SourceMap, path: Path, len: nat): SourceFile {
    SourceFile(LOCAL_CRATE, Real(LocalPath(path)), if m == [] then 0 else m[|m| - 1].start + m[|m| - 1].len + 1, len)
  }

  /** The file of a span, and the source map then: the one matching file, or if there is none the file
      of that local path on disk, which is loaded. `None` is a panic. */
  ghost function Located(m: SourceMap, disk: Disk, crate: nat, name: FileName): Option<(SourceFile, SourceMap)> {
    if TheFile(m, crate, name).Some? then Some((TheFile(m, crate, name).value, m))
    else if exists j :: 0 <= j < |m| && Matches(m[j], crate, name) then None
    else
      match name
      case Real(LocalPath(path)) =>
        (match disk(path)
         case None => None
         case Some(len) => Some((Loaded(m, path, len), m + [Loaded(m, path, len)])))
      case _ => None
  }

  /** A span that was read, the number of tokens left, and the source map then. */
  datatype Reading = Reading(span: SpanData, left: nat, files: SourceMap)

  /** Reading a span from the front of `tokens`. `None` is a panic: the tokens are not a span, its file
      cannot be located, or the range leaves the file. */
  ghost function Decoded(m: SourceMap, disk: Disk, tokens: seq<Token>): Option<Reading> {
    if tokens == [] || !tokens[0].Tag? then None
    else if tokens[0].tag == TAG_PARTIAL_SPAN then Some(Reading(DUMMY, |tokens| - 1, m))
    else if tokens[0].tag != TAG_VALID_SPAN_FULL || |tokens| < 5 then None
    else if !tokens[1].Crate? || !tokens[2].Name? || !tokens[3].Pos? || !tokens[4].Pos? then None
    else
      match Located(m, disk, tokens[1].crate, tokens[2].name)
      case None => None
      case Some((f, m')) =>
        var lo, hi := f.start + tokens[3].pos, f.start + (tokens[3].pos + tokens[4].pos);
        if InFile(f, lo) && InFile(f, hi) then Some(Reading(SpanData(lo, hi, ROOT_CONTEXT, None), |tokens| - 5, m')) else None
  }

  class SpanDecoder {
    const data: seq<Token>
    const disk: Disk
    var pos: nat
    var files: SourceMap

    constructor (data: seq<Token>, disk: Disk, files: SourceMap)
      ensures this.data == data && this.disk == disk && pos == 0 && this.files == files
    {
      this.data, this.disk, pos, this.files := data, disk, 0, files;
    }

    method Next() returns (t: Option<Token>)
      requires pos <= |data|
      modifies this`pos
      ensures if old(pos) < |data| then t == Some(data[old(pos)]) && pos == old(pos) + 1
              else t == None && pos == old(pos)
    {
      if pos < |data| {
        t, pos := Some(data[pos]), pos + 1;
      } else {
        t := None;
      }
    }

    /** Filters the loaded files. `unique` if there is a single match, `none` if there is none. */
    method FilterFiles(crate: nat, name: FileName) returns (found: Option<SourceFile>, none: bool)
      ensures found == TheFile(files, crate, name)
      ensures none <==> !exists j :: 0 <= j < |files| && Matches(files[j], crate, name)
    {
      found, none := None, true;
      ghost var at := 0;
      for i := 0 to |files|
        invariant none <==> found.None?
        invariant found.Some? ==> at < i && found.value == files[at] && Matches(files[at], crate, name)
        invariant forall j | 0 <= j < i && Matches(files[j], crate, name) :: found.Some? && j == at
      {
        if Matches(files[i], crate, name) {
          if found.Some? {
            assert forall k: nat :: !OnlyMatch(files, crate, name, k);
            return None, false;
          }
          found, none, at := Some(files[i]), false, i;
        }
      }
      if found.Some? {
        assert OnlyMatch(files, crate, name, at);
      }
    }

    /** The single matching file; without any match the file is loaded from disk. */
    method FindFile(crate: nat, name: FileName) returns (found: Option<SourceFile>)
      modifies this`files
      ensures found.Some? <==> Located(old(files), disk, crate, name).Some?
      ensures found.Some? ==> Located(old(files), disk, crate, name) == Some((found.value, files))
      ensures found.None? ==> files == old(files)
    {
      var none;
      found, none := FilterFiles(crate, name);
      if !none || !name.Real? || !name.realName.LocalPath? {
        return;
      }
      var len := disk(name.realName.path);
      if len.Some? {
        var loaded := Loaded(files, name.realName.path, len.value);
        files := files + [loaded];
        found := Some(loaded);
      }
    }

    method DecodeSpan() returns (s: Option<SpanData>)
      requires pos <= |data|
      modifies this
      ensures pos <= |data|
      ensures s.Some? <==> Decoded(old(files), disk, data[old(pos)..]).Some?
      ensures s.Some? ==> Decoded(old(files), disk, data[old(pos)..]) == Some(Reading(s.value, |data| - pos, files))
    {
      ghost var tokens := data[pos..];
      var tag := Next();
      if tag.None? || !tag.value.Tag? {
        return None;
      }
      if tag.value.tag == TAG_PARTIAL_SPAN {
        return Some(DUMMY);
      }
      var crate := Next();
      var name := Next();
      if tag.value.tag != TAG_VALID_SPAN_FULL || crate.None? || !crate.value.Crate? || name.None? || !name.value.Name? {
        return None;
      }
      var file := FindFile(crate.value.crate, name.value.name);
      var lo := Next();
      var len := Next();
      if file.None? || lo.None? || !lo.value.Pos? || len.None? || !len.value.Pos? {
        return None;
      }
      var f := file.value;
      var start, end := f.start + lo.value.pos, f.start + (lo.value.pos + len.value.pos);
      if !InFile(f, start) || !InFile(f, end) {
        return None;
      }
      return Some(SpanData(start, end, ROOT_CONTEXT, None));
    }
  }

  // ---------------------------------------------------------------------------------------
  // Round trip

  /** File `k` of the new map is the only one the written name matches. */
  ghost predicate Relocated(m: SourceMap, s: SpanData, m': SourceMap, k: nat)
    requires WellFormedMap(m)
  {
    var f := m[LookupFile(m, s.lo)];
    OnlyMatch(m', f.crate, WithoutLocalPath(f.name), k)
  }

  /** A span that was written in full is read back, in a map where its file is found at another
      offset, exactly when the new file is long enough; then it covers the same range relative to
      its file, has root context, and exactly the written tokens are consumed. */
  lemma SpanRoundTrip(m: SourceMap, s: SpanData, m': SourceMap, disk: Disk, k: nat, rest: seq<Token>)
    requires WellFormedMap(m) && s.lo <= s.hi && Encodable(m, s)
    requires Relocated(m, s, m', k)
    ensures var f, f' := m[LookupFile(m, s.lo)], m'[k];
            var r := Decoded(m', disk, Encoded(m, s) + rest);
            && (r.Some? <==> s.hi - f.start <= f'.len)
            && (r.Some? ==>
                  && r.value.span.lo - f'.start == s.lo - f.start
                  && r.value.span.hi - f'.start == s.hi - f.start
                  && r.value.span.context == ROOT_CONTEXT && r.value.span.parent == None
                  && r.value.left == |rest| && r.value.files == m')
  {
    var f := m[LookupFile(m, s.lo)];
    var name := WithoutLocalPath(f.name);
    assert TheFile(m', f.crate, name) == Some(m'[k]) by {
      forall j | OnlyMatch(m', f.crate, name, j) ensures j == k {
      }
    }
    var tokens := Encoded(m, s) + rest;
    assert tokens[0] == Encoded(m, s)[0] && tokens[1] == Encoded(m, s)[1] && tokens[2] == Encoded(m, s)[2];
    assert tokens[3] == Encoded(m, s)[3] && tokens[4] == Encoded(m, s)[4];
  }

  /** A span of a local file that is not loaded is read from the file on disk, if that is long enough;
      the file is loaded behind all others, and no other is once it is the only match. */
  lemma SpanLoadsItsFile(m: SourceMap, s: SpanData, m': SourceMap, disk: Disk, path: Path, rest: seq<Token>)
    requires WellFormedMap(m) && s.lo <= s.hi && Encodable(m, s)
    requires m[LookupFile(m, s.lo)].name == Real(LocalPath(path)) && disk(path).Some?
    requires forall j | 0 <= j < |m'| :: !Matches(m'[j], m[LookupFile(m, s.lo)].crate, Real(LocalPath(path)))
    ensures var f, f' := m[LookupFile(m, s.lo)], Loaded(m', path, disk(path).value);
            var r := Decoded(m', disk, Encoded(m, s) + rest);
            && (r.Some? <==> s.hi - f.start <= f'.len)
            && (r.Some? ==> r.value.files == m' + [f'] && r.value.left == |rest|
                            && r.value.span == SpanData(f'.start + (s.lo - f.start), f'.start + (s.hi - f.start), ROOT_CONTEXT, None))
            && (WellFormedMap(m') ==> WellFormedMap(m' + [f']))
            && (f.crate == LOCAL_CRATE ==> OnlyMatch(m' + [f'], f.crate, Real(LocalPath(path)), |m'|))
  {
    var f := m[LookupFile(m, s.lo)];
    var tokens := Encoded(m, s) + rest;
    assert tokens[0] == Encoded(m, s)[0] && tokens[1] == Encoded(m, s)[1] && tokens[2] == Encoded(m, s)[2];
    assert tokens[3] == Encoded(m, s)[3] && tokens[4] == Encoded(m, s)[4];
    assert TheFile(m', f.crate, Real(LocalPath(path))) == None by {
      assert forall k: nat :: !OnlyMatch(m', f.crate, Real(LocalPath(path)), k);
    }
  }

  /** The path of a file's name that travels: the local one, or for a remapped name the virtual one. */
  ghost predicate TravelsAs(name: FileName, path: Path) {
    name == Real(LocalPath(path)) || exists local :: name == Real(Remapped(local, path))
  }

  /** The file may be meant by the name: it is of that crate, and has the name or a path that ends with the name's, in
      whole components. */
  ghost predicate MayBeMeant(f: SourceFile, crate: nat, name: FileName) {
    && f.crate == crate
    && (f.name == name || exists lead, path :: TravelsAs(name, path) && TravelsAs(f.name, lead + path))
  }

  lemma MatchesExactly(f: SourceFile, crate: nat, name: FileName)
    ensures Matches(f, crate, name) <==> MayBeMeant(f, crate, name)
  {
    if Matches(f, crate, name) && f.name != name {
      var p, q := PathOf(name.realName), PathOf(f.name.realName);
      TravelsAsPath(name);
      TravelsAsPath(f.name);
      assert q == q[..|q| - |p|] + p;
      assert TravelsAs(name, p) && TravelsAs(f.name, q[..|q| - |p|] + p);
    }
    if f.crate == crate {
      forall lead, path | TravelsAs(name, path) && TravelsAs(f.name, lead + path)
        ensures Matches(f, crate, name)
      {
        TravelsAsPath(name);
        TravelsAsPath(f.name);
        assert (lead + path)[|lead|..] == path;
      }
    }
  }

  lemma TravelsAsPath(name: FileName)
    requires name.Real?
    ensures forall path :: TravelsAs(name, path) <==> path == PathOf(name.realName)
  {
  }

  /** The file a span is read into: the only loaded one that may be meant, or if there is none, the file of that local
      path on disk. More than one, or none on disk, is a panic. Files of other crates are never meant. */
  lemma FoundExactly(m: SourceMap, disk: Disk, crate: nat, name: FileName)
    ensures var r := Located(m, disk, crate, name);
            r.Some? <==>
              || (exists k :: 0 <= k < |m| && IsOnlyMeant(m, crate, name, k))
              || (NoneIsMeant(m, crate, name) && exists path :: name == Real(LocalPath(path)) && disk(path).Some?)
    ensures forall k | 0 <= k < |m| && IsOnlyMeant(m, crate, name, k) :: Located(m, disk, crate, name) == Some((m[k], m))
    ensures forall path | NoneIsMeant(m, crate, name) && name == Real(LocalPath(path)) && disk(path).Some? ::
              var f := SourceFile(0, name, if m == [] then 0 else m[|m| - 1].start + m[|m| - 1].len + 1, disk(path).value);
              Located(m, disk, crate, name) == Some((f, m + [f]))
  {
    forall f ensures Matches(f, crate, name) <==> MayBeMeant(f, crate, name) {
      MatchesExactly(f, crate, name);
    }
    forall k: nat ensures OnlyMatch(m, crate, name, k) <==> k < |m| && IsOnlyMeant(m, crate, name, k) {
    }
    if k: nat :| OnlyMatch(m, crate, name, k) {
      assert forall j: nat :: OnlyMatch(m, crate, name, j) ==> j == k;
      assert IsOnlyMeant(m, crate, name, k);
    } else {
      assert TheFile(m, crate, name) == None;
    }
  }

  ghost predicate IsOnlyMeant(m: SourceMap, crate: nat, name: FileName, k: int)
    requires 0 <= k < |m|
  {
    MayBeMeant(m[k], crate, name) && forall j | 0 <= j < |m| && j != k :: !MayBeMeant(m[j], crate, name)
  }

  ghost predicate NoneIsMeant(m: SourceMap, crate: nat, name: FileName) {
    forall j | 0 <= j < |m| :: !MayBeMeant(m[j], crate, name)
  }

  /** The name that is written for a file has no local path if it is remapped, and means the file wherever it is loaded. */
  lemma OwnNameIsMeant(f: SourceFile)
    ensures MayBeMeant(f, f.crate, WithoutLocalPath(f.name))
    ensures forall local, path | f.name == Real(Remapped(local, path)) :: WithoutLocalPath(f.name) == Real(Remapped(None, path))
    ensures (forall local, path :: f.name != Real(Remapped(local, path))) ==> WithoutLocalPath(f.name) == f.name
  {
    if f.name.Real? && f.name.realName.Remapped? {
      var path := f.name.realName.virtualName;
      assert [] + path == path;
      assert TravelsAs(WithoutLocalPath(f.name), path) && TravelsAs(f.name, [] + path);
    }
  }

  /** What is written: of a real span that ends in the file it starts in, that file's crate and name and the span relative
      to it, and of any other, a tag. */
  lemma WrittenExactly(m: SourceMap, s: SpanData, k: nat)
    requires WellFormedMap(m) && s.lo <= s.hi
    requires k < |m| && m[k].start <= s.lo && (k + 1 < |m| ==> s.lo < m[k + 1].start)
    ensures var full := !(s.lo == 0 && s.hi == 0) && s.hi <= m[k].start + m[k].len;
            && (Encodable(m, s) <==> full)
            && (full ==> LookupFile(m, s.lo) == k
                         && Encoded(m, s) == [Tag(1), Crate(m[k].crate), Name(WithoutLocalPath(m[k].name)), Pos(s.lo - m[k].start), Pos(s.hi - s.lo)])
            && (!full ==> Encoded(m, s) == [Tag(0)])
  {
    var j := LookupFile(m, s.lo);
    assert !(j < k) && !(k + 1 < j) && j != k + 1;
  }

  /** Every other span comes back as the dummy span. */
  lemma OtherSpansBecomeDummy(m: SourceMap, s: SpanData, m': SourceMap, disk: Disk, rest: seq<Token>)
    requires WellFormedMap(m) && s.lo <= s.hi && !Encodable(m, s)
    ensures Decoded(m', disk, Encoded(m, s) + rest) == Some(Reading(DUMMY, |rest|, m'))
  {
    var tokens := Encoded(m, s) + rest;
    assert tokens[0] == Tag(TAG_PARTIAL_SPAN);
  }

  /** Encoding a list of spans one after the other. */
  function EncodedAll(m: SourceMap, spans: seq<SpanData>): seq<Token>
    requires WellFormedMap(m) && forall i | 0 <= i < |spans| :: spans[i].lo <= spans[i].hi
  {
    if spans == [] then [] else Encoded(m, spans[0]) + EncodedAll(m, spans[1..])
  }

  /** Decoding that many spans one after the other. */
  ghost function DecodedAll(m: SourceMap, disk: Disk, tokens: seq<Token>, n: nat): Option<(seq<SpanData>, nat)>
    decreases n
  {
    if n == 0 then Some(([], |tokens|))
    else
      match Decoded(m, disk, tokens)
      case None => None
      case Some(r) =>
        if r.left > |tokens| then None
        else
          match DecodedAll(r.files, disk, tokens[|tokens| - r.left..], n - 1)
          case None => None
          case Some((more, end)) => Some(([r.span] + more, end))
  }

  /** What a session makes of a span when `m'[k]` is the file it lies in. */
  function Moved(m: SourceMap, s: SpanData, m': SourceMap, k: nat): SpanData
    requires WellFormedMap(m)
  {
    if !Encodable(m, s) || k >= |m'| then DUMMY
    else
      var base := m[LookupFile(m, s.lo)].start;
      if s.lo < base || s.hi < base then DUMMY
      else SpanData(m'[k].start + (s.lo - base), m'[k].start + (s.hi - base), ROOT_CONTEXT, None)
  }

  /** Every span of the stream finds its file, long enough, at index `at(s)` of the new map. */
  ghost predicate AllRelocated(m: SourceMap, spans: seq<SpanData>, m': SourceMap, at: SpanData -> nat)
    requires WellFormedMap(m)
  {
    forall i | 0 <= i < |spans| ::
      && spans[i].lo <= spans[i].hi
      && (Encodable(m, spans[i]) ==>
            && Relocated(m, spans[i], m', at(spans[i]))
            && spans[i].hi - m[LookupFile(m, spans[i].lo)].start <= m'[at(spans[i])].len)
  }

  lemma OneSpan(m: SourceMap, s: SpanData, m': SourceMap, disk: Disk, at: SpanData -> nat, rest: seq<Token>)
    requires WellFormedMap(m) && AllRelocated(m, [s], m', at) && s.lo <= s.hi
    ensures Decoded(m', disk, Encoded(m, s) + rest) == Some(Reading(Moved(m, s, m', at(s)), |rest|, m'))
  {
    assert [s][0] == s;
    if Encodable(m, s) {
      SpanRoundTrip(m, s, m', disk, at(s), rest);
    } else {
      OtherSpansBecomeDummy(m, s, m', disk, rest);
    }
  }

  /** All spans of the stream, each moved with its file. */
  function MovedAll(m: SourceMap, spans: seq<SpanData>, m': SourceMap, at: SpanData -> nat): seq<SpanData>
    requires WellFormedMap(m)
  {
    if spans == [] then [] else [Moved(m, spans[0], m', at(spans[0]))] + MovedAll(m, spans[1..], m', at)
  }

  /** A stream of spans written one after the other is read back one after the other, each moved
      with its file, and leaves what follows untouched. */
  lemma {:induction false} StreamRoundTrip(m: SourceMap, spans: seq<SpanData>, m': SourceMap, disk: Disk, at: SpanData -> nat, rest: seq<Token>)
    requires WellFormedMap(m) && AllRelocated(m, spans, m', at)
    ensures DecodedAll(m', disk, EncodedAll(m, spans) + rest, |spans|) == Some((MovedAll(m, spans, m', at), |rest|))
    decreases |spans|
  {
    if spans == [] {
      assert EncodedAll(m, []) == [];
      assert EncodedAll(m, spans) + rest == rest;
      assert DecodedAll(m', disk, rest, 0) == Some(([], |rest|));
    } else {
      var s, tail := spans[0], EncodedAll(m, spans[1..]) + rest;
      var tokens := Encoded(m, s) + tail;
      assert EncodedAll(m, spans) == Encoded(m, s) + EncodedAll(m, spans[1..]);
      assert EncodedAll(m, spans) + rest == tokens;
      StreamRoundTrip(m, spans[1..], m', disk, at, rest);
      OneSpan(m, s, m', disk, at, tail);
      assert Decoded(m', disk, tokens) == Some(Reading(Moved(m, s, m', at(s)), |tail|, m'));
      assert tokens[|tokens| - |tail|..] == tail;
      assert DecodedAll(m', disk, tail, |spans| - 1) == Some((MovedAll(m, spans[1..], m', at), |rest|));
    }
  }
}
