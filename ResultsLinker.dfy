/**
 * The results linker of the AGREE results view: seven independent maps from
 * an analysis result to what was built for it (the Lustre program, the
 * Redlog program, the component, its contract, the signal layout, the
 * reference map and the translation log). A missing entry reads as null,
 * here `None`.
 */
module ResultsLinker {
  import opened Wrappers
  import opened Ast
  import RedlogScript

  /** The signal layout of a result: its categories, and each element's category and name. */
  datatype Layout = Layout(categories: seq<string>, elements: seq<(Option<string>, Option<string>)>)

  /** A reference map: from a reference string or variable id (possibly null) to the model element (possibly null). */
  type ReferenceMap = map<Option<string>, Option<Ref>>

  /** Everything the linker holds, as one value. */
  datatype Links = Links(
    programs: map<object, Program>,
    redlogPrograms: map<object, RedlogScript.RedlogProgram>,
    components: map<object, Option<ComponentImpl>>,
    contracts: map<object, Option<AgreeSubclause>>,
    layouts: map<object, Layout>,
    referenceMaps: map<object, ReferenceMap>,
    logs: map<object, string>)

  class AgreeResultsLinker {
    var programs: map<object, Program>
    var redlogPrograms: map<object, RedlogScript.RedlogProgram>
    var components: map<object, Option<ComponentImpl>>
    var contracts: map<object, Option<AgreeSubclause>>
    var layouts: map<object, Layout>
    var referenceMaps: map<object, ReferenceMap>
    var logs: map<object, string>

    constructor ()
      ensures programs == map[] && redlogPrograms == map[] && components == map[] && contracts == map[]
      ensures layouts == map[] && referenceMaps == map[] && logs == map[]
    {
      programs := map[];
      redlogPrograms := map[];
      components := map[];
      contracts := map[];
      layouts := map[];
      referenceMaps := map[];
      logs := map[];
    }

    function State(): Links
      reads this
    {
      Links(programs, redlogPrograms, components, contracts, layouts, referenceMaps, logs)
    }

    function GetProgram(result: object): (r: Option<Program>)
      reads this`programs
      ensures r.Some? <==> result in programs
      ensures r.Some? ==> r.value == programs[result]
    {
      if result in programs then Some(programs[result]) else None
    }

    method SetProgram(result: object, program: Program)
      modifies this`programs
      ensures programs == old(programs)[result := program]
      ensures GetProgram(result) == Some(program)
    {
      programs := programs[result := program];
    }

    function GetRedlogProgram(result: object): (r: Option<RedlogScript.RedlogProgram>)
      reads this`redlogPrograms
      ensures r.Some? <==> result in redlogPrograms
      ensures r.Some? ==> r.value == redlogPrograms[result]
    {
      if result in redlogPrograms then Some(redlogPrograms[result]) else None
    }

    method SetRedlogProgram(result: object, redlogProgram: RedlogScript.RedlogProgram)
      modifies this`redlogPrograms
      ensures redlogPrograms == old(redlogPrograms)[result := redlogProgram]
      ensures GetRedlogProgram(result) == Some(redlogProgram)
    {
      redlogPrograms := redlogPrograms[result := redlogProgram];
    }

    /** A component stored as null reads back as null, like one never stored. */
    function GetComponent(result: object): (r: Option<ComponentImpl>)
      reads this`components
      ensures r.Some? <==> result in components && components[result].Some?
      ensures r.Some? ==> r == components[result]
    {
      if result in components then components[result] else None
    }

    method SetComponent(result: object, ci: Option<ComponentImpl>)
      modifies this`components
      ensures components == old(components)[result := ci]
      ensures GetComponent(result) == ci
    {
      components := components[result := ci];
    }

    function GetContract(result: object): (r: Option<AgreeSubclause>)
      reads this`contracts
      ensures r.Some? <==> result in contracts && contracts[result].Some?
      ensures r.Some? ==> r == contracts[result]
    {
      if result in contracts then contracts[result] else None
    }

    method SetContract(result: object, contract: Option<AgreeSubclause>)
      modifies this`contracts
      ensures contracts == old(contracts)[result := contract]
      ensures GetContract(result) == contract
    {
      contracts := contracts[result := contract];
    }

    function GetLayout(result: object): (r: Option<Layout>)
      reads this`layouts
      ensures r.Some? <==> result in layouts
      ensures r.Some? ==> r.value == layouts[result]
    {
      if result in layouts then Some(layouts[result]) else None
    }

    method SetLayout(result: object, layout: Layout)
      modifies this`layouts
      ensures layouts == old(layouts)[result := layout]
      ensures GetLayout(result) == Some(layout)
    {
      layouts := layouts[result := layout];
    }

    function GetReferenceMap(result: object): (r: Option<ReferenceMap>)
      reads this`referenceMaps
      ensures r.Some? <==> result in referenceMaps
      ensures r.Some? ==> r.value == referenceMaps[result]
    {
      if result in referenceMaps then Some(referenceMaps[result]) else None
    }

    method SetReferenceMap(result: object, refMap: ReferenceMap)
      modifies this`referenceMaps
      ensures referenceMaps == old(referenceMaps)[result := refMap]
      ensures GetReferenceMap(result) == Some(refMap)
    {
      referenceMaps := referenceMaps[result := refMap];
    }

    function GetLog(result: object): (r: Option<string>)
      reads this`logs
      ensures r.Some? <==> result in logs
      ensures r.Some? ==> r.value == logs[result]
    {
      if result in logs then Some(logs[result]) else None
    }

    method SetLog(result: object, log: string)
      modifies this`logs
      ensures logs == old(logs)[result := log]
      ensures GetLog(result) == Some(log)
    {
      logs := logs[result := log];
    }
  }

  /** A fresh linker answers null for every result and every kind. */
  lemma NothingLinked(linker: AgreeResultsLinker, result: object)
    requires linker.programs == map[] && linker.redlogPrograms == map[] && linker.components == map[]
    requires linker.contracts == map[] && linker.layouts == map[] && linker.referenceMaps == map[] && linker.logs == map[]
    ensures linker.GetProgram(result).None? && linker.GetRedlogProgram(result).None?
    ensures linker.GetComponent(result).None? && linker.GetContract(result).None?
    ensures linker.GetLayout(result).None? && linker.GetReferenceMap(result).None? && linker.GetLog(result).None?
  {
  }
}
