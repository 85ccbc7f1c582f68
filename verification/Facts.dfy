/** The facts extractors emit. */
module Facts {

  datatype FactKind = Calls | ImportsFrom | Defines | Extends | Implements

  datatype SymbolKind = Function | Method | Class | Module | External | Symbol | Interface

  datatype Fact = Fact(
    kind: FactKind,
    language: string,
    sourceSymbol: string,
    sourceDisplay: string,
    sourceKind: SymbolKind,
    targetSymbol: string,
    targetDisplay: string,
    targetKind: SymbolKind,
    filePath: string,
    startLine: nat,
    endLine: nat,
    confidence: real)

  const CONFIDENCE_PARSED := 0.95
}
