/**
 * `swagger_new.py`: the same scanner, URL lists, placeholder pattern and
 * method filter as the threaded checker (modelled once in `Swagger`), with
 * three numeric id values instead of six.
 */
module SwaggerNew {

  import opened Swagger

  /** The values this variant tries: 1, 2 and 3. */
  const NumericIdValues: seq<string> := ["1", "2", "3"]

  /** `generate_id_variants`: three URLs, for 1, 2 and 3. */
  method GenerateIdVariants(url: string) returns (variants: seq<string>)
    ensures |variants| == 3
    ensures forall i :: 0 <= i < 3 ==> variants[i] == SubstituteIds(url, NumericIdValues[i])
  {
    variants := IdVariantsFor(url, NumericIdValues);
  }

  /** The three values are the first three of the threaded checker's six. */
  lemma NumericValuesArePrefix()
    ensures NumericIdValues == IdValues[..3]
  {
  }

  /** `check_endpoints`: a GET endpoint is probed at its URL, then at its three variants when it has an id placeholder. */
  lemma EndpointCandidates(url: string, methods: seq<string>)
    requires "get" in methods
    ensures var r := CandidateUrls(url, methods, NumericIdValues);
      r[0] == url
      && (HasIdParameter(url) ==>
            |r| == 4 && r[1..] == CandidateUrls(url, methods, IdValues)[1..4]
            && forall i :: 1 <= i < 4 ==> !HasIdParameter(r[i]) && r[i] != url)
      && (!HasIdParameter(url) ==> r == [url])
  {
    VariantsResolved(url);
  }
}
