/** The record shapes the backend returns (backend/models/response_models.py). */
module Models {

  datatype ChurnFile = ChurnFile(
    file: string,
    commits: int,
    authors: int,
    additions: int,
    deletions: int,
    netChanges: int)

  datatype ComplexityFile = ComplexityFile(
    file: string,
    complexity: real,
    lines: int,
    functions: int,
    complexityPerLine: real)

  datatype HotspotFile = HotspotFile(
    file: string,
    commits: int,
    complexity: real,
    riskLevel: string,
    color: string)

  /** The two exception kinds the endpoints tell apart. */
  datatype Exception = ValueError(message: string) | OtherError(message: string)
}
