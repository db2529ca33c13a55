/** A tree uploaded in one place and downloaded in another keeps what its Files contain. */
module DataMoverRoundTrip {
  import opened GoPath
  import opened GoPathRelative
  import opened DataMover
  import opened DataMoverUpload
  import opened DataMoverDownload

  // ----- The name a node URL gives -----

  ghost predicate NoQuery(host: Host) {
    '?' !in host.scheme && '?' !in host.authority && forall i :: 0 <= i < |host.api| ==> '?' !in host.api[i]
  }

  lemma {:induction false} QueryCut(s: string, query: string)
    requires '?' !in s
    ensures BeforeQuery(s + ("?" + query)) == s
  {
    if s == "" {
      assert s + ("?" + query) == "?" + query;
    } else {
      assert (s + ("?" + query))[1..] == s[1..] + ("?" + query);
      assert s[0] in s && forall c :: c in s[1..] ==> c in s;
      QueryCut(s[1..], query);
      assert [s[0]] + s[1..] == s;
    }
  }

  lemma {:induction false} SlashedNoQuery(parts: seq<string>)
    requires forall i :: 0 <= i < |parts| ==> '?' !in parts[i]
    ensures '?' !in Slashed(parts)
  {
    if |parts| > 1 { SlashedNoQuery(parts[1..]); }
  }

  lemma {:induction false} UrlName(host: Host, id: string)
    requires NoQuery(host) && Plain(id) && '?' !in id
    ensures Base(BeforeQuery(NodeUrl(host, id))) == id
  {
    hide Slashed, BeforeQuery, Base, Plain;
    var parts := host.api + ["node"];
    assert host.api + ["node", id] == parts + [id];
    SlashedConcat(parts, [id]);
    SlashedOne(id);
    SlashedNoQuery(parts);
    var front := host.scheme + "://" + host.authority + "/" + Slashed(parts);
    var whole := front + "/" + id;
    assert NodeUrl(host, id) == whole + ("?" + "download");
    QueryCut(whole, "download");
    BaseOfName(front, id);
  }

  // ----- Names -----

  /** The File will be downloaded under a plain name. */
  predicate Usable(current: string, f: FileData) {
    if SourceOf(f).Remote? then Plain(DownloadName(f))
    else UploadName(f, current) == "" || Plain(UploadName(f, current))
  }

  lemma {:induction false} UsableCarried(env: Env, w: World, f: FileData, w': World, f': FileData, current: string)
    requires NoQuery(env.host) && Usable(current, f) && CarriedFile(env, w, f, w', f', current)
    ensures Plain(DownloadName(f'))
  {
    hide SourceOf, Meaning, NodeUrl, Plain, UploadName, BeforeQuery, Base;
    if !SourceOf(f).Remote? && f'.basename == "" {
      var id :| f'.location == NodeUrl(env.host, id) && Plain(id) && '?' !in id;
      UrlName(env.host, id);
    }
  }

  lemma {:induction false} NamesCarried(env: Env, w: World, fs: seq<FileData>, w': World, fs': seq<FileData>,
                                        current: string)
    requires NoQuery(env.host) && Carried(env, w, fs, w', fs', current)
    requires forall i :: 0 <= i < |fs| ==> Usable(current, fs[i])
    ensures AllNamesPlain(fs')
  {
    hide Usable, CarriedFile, Plain, DownloadName, NoQuery;
    forall i | 0 <= i < |fs'| ensures Plain(DownloadName(fs'[i])) {
      UsableCarried(env, w, fs[i], w', fs'[i], current);
    }
  }

  // ----- There and back -----

  /** After upload in one world and download in a later one, the File has at its new place what it had. */
  ghost predicate BroughtFile(env: Env, w: World, f: FileData, current: string, env': Env, w': World, f': FileData,
                              base: string) {
    Meaning(env, w, f, current).Some? ==> Lookup(w'.files, Landing(env', base, f')) == Meaning(env, w, f, current)
  }

  lemma BroughtStep(env: Env, w: World, f: FileData, current: string, w1: World, f1: FileData,
                    env': Env, w2: World, w3: World, f': FileData, base: string)
    requires CarriedFile(env, w, f, w1, f1, current) && Grows(w1.web, w2.web) && LandedFile(env', w2, f1, w3, f', base)
    ensures BroughtFile(env, w, f, current, env', w3, f', base)
  {
    hide Landing, Settled, SourceOf, NodeUrl, Plain, UploadName;
  }

  /**
    * Any tree of Files, Arrays, Records and listed Directories, uploaded from one disk and downloaded
    * to another (or the same) at any later time: each File has at its new path the content it had.
    */
  lemma {:induction false} UploadThenDownload(env: Env, w: World, v: Value, current: string, depth: nat,
                                              env': Env, w2: World, into: string, base: string)
    requires ShockServes(env) && NoQuery(env.host) && Listed(v) && DirsNamed(PlainDir, v)
    requires forall i :: 0 <= i < |Files(v)| ==> Usable(current, Files(v)[i])
    requires TempNamesFree(env') && Tidy(w2) && Under(base, into)
    requires var up := Upload(env, w, v, current, depth);
             up.Done? && Grows(up.world.web, w2.web) && Download(env', w2, up.value, into, base).Done?
    ensures var up := Upload(env, w, v, current, depth);
            var down := Download(env', w2, up.value, into, base);
            && |Files(down.value)| == |Files(v)| == down.count
            && (forall i :: 0 <= i < |Files(v)| ==>
                  BroughtFile(env, w, Files(v)[i], current, env', down.world, Files(down.value)[i], base))
  {
    hide Upload, Download, Files, CarriedFile, LandedFile, BroughtFile, ShockServes, Under, Tidy, DirsNamed, Listed,
         Usable, Posted, Kept, Landing;
    var up := Upload(env, w, v, current, depth);
    UploadCarries(env, w, v, current, depth);
    NamesCarried(env, w, Files(v), up.world, Files(up.value), current);
    DownloadLands(env', w2, up.value, into, base);
    var down := Download(env', w2, up.value, into, base);
    forall i | 0 <= i < |Files(v)|
      ensures BroughtFile(env, w, Files(v)[i], current, env', down.world, Files(down.value)[i], base)
    {
      BroughtStep(env, w, Files(v)[i], current, up.world, Files(up.value)[i],
                  env', w2, down.world, Files(down.value)[i], base);
    }
  }
}
