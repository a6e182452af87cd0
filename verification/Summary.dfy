/** The parsed result of one fetch. Field types in the source are annotations only: nothing converts
    or checks them, so a name can be any truthy JSON value. */
module Summary {
  import opened Json

  const UNKNOWN_ISSUE_NAME := "Unknown issue"

  datatype UpdateItem = UpdateItem(entityId: string, name: Value)
  datatype RepairIssue = RepairIssue(issueId: Value, name: Value)
  datatype IntegrationError = IntegrationError(entryId: Value, name: Value, state: string)

  datatype HASummary = HASummary(
    fetchedAt: int,
    pendingUpdates: seq<UpdateItem>,
    repairIssues: seq<RepairIssue>,
    integrationErrors: seq<IntegrationError>)
}
