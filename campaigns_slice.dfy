/** The `campaigns` slice of the client store: campaigns keyed by `_id`, the campaign on
    display, and the request flags. */
module CampaignsSlice {
  import opened Common
  import IdLists

  /** A campaign as the client lists it. `creatorId` is the populated `creator._id`;
      `createdAt` and `scheduledDate` are timestamps, `None` where `new Date` gives NaN;
      `sent` is `deliveryStats.sent`, `None` when missing; `texts` holds the properties
      whose value is a string, by name. */
  datatype CampaignRow = CampaignRow(
    id: Option<string>,
    creatorId: Option<string>,
    status: string,
    createdAt: Option<int>,
    scheduledDate: Option<int>,
    audienceSize: int,
    sent: Option<int>,
    texts: map<string, string>)

  function RowId(c: CampaignRow): Option<string> { c.id }

  class CampaignsSlice {
    var list: seq<CampaignRow>
    var currentCampaign: Option<CampaignRow>
    var loading: bool
    var error: Option<string>

    predicate Settled()
      reads this
    {
      !loading && error == None
    }

    constructor()
      ensures list == [] && currentCampaign == None && Settled()
    {
      list := [];
      currentCampaign := None;
      loading := false;
      error := None;
    }

    method SetLoading(b: bool)
      modifies this
      ensures loading == b
      ensures error == (if b then None else old(error))
      ensures list == old(list) && currentCampaign == old(currentCampaign)
    {
      loading := b;
      if b {
        error := None;
      }
    }

    method SetError(e: Option<string>)
      modifies this
      ensures error == e && !loading
      ensures list == old(list) && currentCampaign == old(currentCampaign)
    {
      error := e;
      loading := false;
    }

    method SetCampaigns(campaigns: seq<CampaignRow>)
      modifies this
      ensures list == campaigns && currentCampaign == old(currentCampaign) && Settled()
    {
      list := campaigns;
      loading := false;
      error := None;
    }

    method SetCurrentCampaign(c: Option<CampaignRow>)
      modifies this
      ensures currentCampaign == c && list == old(list) && Settled()
    {
      currentCampaign := c;
      loading := false;
      error := None;
    }

    method AddCampaign(c: CampaignRow)
      modifies this
      ensures list == old(list) + [c] && |list| == |old(list)| + 1
      ensures currentCampaign == old(currentCampaign) && Settled()
    {
      list := list + [c];
      loading := false;
      error := None;
    }

    method UpdateCampaign(c: CampaignRow)
      modifies this
      ensures list == IdLists.ReplaceFirst(old(list), c, RowId)
      ensures currentCampaign == Some(c) && Settled()
    {
      var index := IdLists.FindIndex(list, c.id, RowId);
      if index != -1 {
        list := list[index := c];
      }
      currentCampaign := Some(c);
      loading := false;
      error := None;
    }

    /** Unlike the orders slice, removing leaves the displayed campaign as it was, even
        when it is the one removed. */
    method RemoveCampaign(id: Option<string>)
      modifies this
      ensures list == IdLists.RemoveId(old(list), id, RowId)
      ensures currentCampaign == old(currentCampaign) && Settled()
    {
      list := IdLists.RemoveId(list, id, RowId);
      loading := false;
      error := None;
    }
  }
}
