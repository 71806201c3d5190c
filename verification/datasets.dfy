/** The stored dataset record: one per successful upload. */
module Datasets {
  import opened Analysis

  /** `EquipmentDataset`: an id, the uploaded file's name, the upload time and the summary. */
  datatype Dataset = Dataset(id: nat, filename: string, uploadedAt: nat, summary: Summary)
}
