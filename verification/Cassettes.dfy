/** The recorded interaction and its two file formats (pkg/store/cassette.go, pkg/store/serializer.go).

    Times and durations are whole nanoseconds. The two serializers are parameters: a pair of functions
    per format, of which only the round trip of the cassettes that are saved is ever assumed. */
module Cassettes {
  import opened Wrappers
  import opened Paths

  type Bytes = seq<bv8>

  const CURRENT_CASSETTE_VERSION := 1

  datatype StreamChunk = StreamChunk(data: string, delay: int)

  datatype CassetteRequest = CassetteRequest(httpMethod: string,
      path: string, headers: map<string, string>, body: string)

  datatype CassetteResponse = CassetteResponse(
    statusCode: int,
    headers: map<string, string>,
    body: string,
    chunks: seq<StreamChunk>,
    latency: int,
    isStream: bool)

  datatype Cassette = Cassette(
    version: int,
    hash: string,
    namespace: string,
    provider: string,
    endpoint: string,
    recordedAt: int,
    expiresAt: Option<int>,
    request: CassetteRequest,
    response: CassetteResponse,
    metadata: map<string, string>)

  datatype CassetteMeta = CassetteMeta(hash: string, namespace: string, provider: string, endpoint: string,
                                       recordedAt: int, filePath: Path)

  datatype Format = Yaml | Json

  function Extension(f: Format): string {
    if f == Json then ".json" else ".yaml"
  }

  /** Loading picks the serializer from the file's extension: JSON for ".json", YAML for anything else. */
  function FormatOf(name: string): Format {
    if Lower(Ext(name)) == ".json" then Json else Yaml
  }

  datatype Codecs = Codecs(
    marshal: (Format, Cassette) -> Option<Bytes>,
    unmarshal: (Format, Bytes) -> Option<Cassette>)
  {
    /** `c` can be written in format `f` and is read back as it was. */
    ghost predicate RoundTrips(f: Format, c: Cassette) {
      marshal(f, c).Some? && unmarshal(f, marshal(f, c).value) == Some(c)
    }
  }

  /** The JSON serializer reads the files whose names end in .json, in letters of either case, and the YAML
      serializer reads all others. */
  lemma FormatIsJsonIff(name: string)
    ensures FormatOf(name) == Json <==> EndsIn(name, ".json")
  {
    EndsInIffExt(name, ".json");
  }

  /** A file name with the extension of a format is read in that format. */
  lemma FormatBySuffix(name: string, f: Format)
    ensures FormatOf(name + Extension(f)) == f
  {
    var file := name + Extension(f);
    assert file[|file| - 5..] == Extension(f);
    assert Lower(".json") == ".json" && Lower(".yaml")[1] == 'y';
    FormatIsJsonIff(file);
  }

  lemma FileNameProperties(hash: string, f: Format)
    requires hash != "" && '/' !in hash
    ensures Plain(hash + Extension(f)) && IsCassetteName(hash + Extension(f)) && FormatOf(hash + Extension(f)) == f
  {
    ExtOfSuffix(hash, Extension(f));
    assert Lower(".json") == ".json" && Lower(".yaml") == ".yaml";
    assert (hash + Extension(f))[|hash| + 1] in {'j', 'y'};
  }
}
