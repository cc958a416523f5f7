/** The plotter: what the application controller asks the plotter controller to deploy (plotter_types.go). */
module PlotterTypes {
  import opened Prelude
  import opened DataPaths
  import opened Planner

  datatype FlowType = ReadFlow | WriteFlow | CopyFlow

  datatype Trigger = InitTrigger | WorkloadTrigger

  datatype Vault = Vault(secretPath: string, role: string, address: string, authPath: string)

  /** A data store with the credentials for each kind of access. */
  datatype DataStore = DataStore(connection: string, format: string, vault: map<FlowType, Vault>)

  datatype AssetDetails = AssetDetails(advertised: string, store: DataStore)

  /** A step reads an asset, or the service of another step when the asset name is empty. */
  datatype StepSource = StepSource(assetID: string, api: Option<Interface>)

  datatype StepParameters = StepParameters(
    source: StepSource, sink: Option<string>, api: Option<string>, actions: seq<Action>)

  datatype Step = Step(cluster: string, template: string, parameters: Option<StepParameters>)

  datatype SubFlow = SubFlow(flowType: FlowType, trigger: Trigger, steps: seq<seq<Step>>)

  datatype Flow = Flow(name: string, flowType: FlowType, assetID: string, subFlows: seq<SubFlow>)

  datatype ModuleInfo = ModuleInfo(name: string, moduleType: string, chart: string, scope: Scope)

  datatype Template = Template(name: string, modules: seq<ModuleInfo>)

  datatype PlotterSpec = PlotterSpec(
    assets: map<string, AssetDetails>, flows: seq<Flow>, templates: map<string, Template>)

  function FlowTypeName(t: FlowType): string {
    match t
    case ReadFlow => "read"
    case WriteFlow => "write"
    case CopyFlow => "copy"
  }

  /** Everything a step names is in the plotter. */
  ghost predicate StepResolves(spec: PlotterSpec, s: Step) {
    && s.template in spec.templates
    && (s.parameters.Some? ==>
        && s.parameters.value.source.assetID in spec.assets
        && (s.parameters.value.sink.Some? ==> s.parameters.value.sink.value in spec.assets))
  }

  ghost predicate SubFlowResolves(spec: PlotterSpec, f: SubFlow) {
    forall i, j :: 0 <= i < |f.steps| && 0 <= j < |f.steps[i]| ==> StepResolves(spec, f.steps[i][j])
  }

  ghost predicate FlowResolves(spec: PlotterSpec, f: Flow) {
    forall i :: 0 <= i < |f.subFlows| ==> SubFlowResolves(spec, f.subFlows[i])
  }

  ghost predicate Resolves(spec: PlotterSpec) {
    forall i :: 0 <= i < |spec.flows| ==> FlowResolves(spec, spec.flows[i])
  }
}
